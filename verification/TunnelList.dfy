/**
 The doubly linked list with two sentinels of car/tunnel.  `nodes` is the list as a
 sequence, sentinels included; every operation is pointer surgery on the nodes and is
 specified on that sequence.
 */
module TunnelLists {
  import opened Bytes

  const PREFIX: nat := 512
  const LST_MAX: int := 100

  class Node {
    var key: array<byte>
    var prev: Node?
    var next: Node?

    /** A node as kmalloc gives it: the two links hold anything. */
    constructor (key: array<byte>)
      ensures this.key == key
    {
      this.key := key;
    }
  }

  /** Forward and backward links agree along `ns`. */
  ghost predicate Chain(ns: seq<Node>)
    reads ns
  {
    && (forall i :: 0 <= i < |ns| - 1 ==> ns[i].next == ns[i + 1])
    && (forall i :: 0 < i < |ns| ==> ns[i].prev == ns[i - 1])
  }

  ghost predicate Distinct(ns: seq<Node>) {
    forall i, j :: 0 <= i < j < |ns| ==> ns[i] != ns[j]
  }

  ghost predicate Apart(a: seq<Node>, b: seq<Node>) {
    forall i, j :: 0 <= i < |a| && 0 <= j < |b| ==> a[i] != b[j]
  }

  lemma DistinctInsert(a: seq<Node>, x: Node, b: seq<Node>)
    requires Distinct(a + b) && x !in a && x !in b
    ensures Distinct(a + [x] + b)
  {
    var c := a + [x] + b;
    forall i, j | 0 <= i < j < |c| ensures c[i] != c[j] {
      if i != |a| && j != |a| {
        assert (a + b)[if i < |a| then i else i - 1] != (a + b)[if j < |a| then j else j - 1];
      }
    }
  }

  lemma Slice(ns: seq<Node>, lo: nat, hi: nat)
    requires lo <= hi <= |ns| && Chain(ns) && Distinct(ns)
    ensures Chain(ns[lo..hi]) && Distinct(ns[lo..hi])
    ensures forall k :: 0 <= k < lo || hi <= k < |ns| ==> ns[k] !in ns[lo..hi]
  {
  }

  lemma DistinctJoin(a: seq<Node>, b: seq<Node>, x: Node)
    requires Distinct(a) && Distinct(b) && Apart(a, b) && x !in a && x !in b
    ensures Distinct(a + b + [x])
  {
  }

  lemma ChainJoins(a: seq<Node>, b: seq<Node>)
    requires a != [] && b != [] && Chain(a) && Chain(b)
    requires a[|a| - 1].next == b[0] && b[0].prev == a[|a| - 1]
    ensures Chain(a + b)
  {
  }

  class List {
    var front: Node
    var rear: Node
    var size: int
    ghost var nodes: seq<Node>

    /** The links run through `ns` both ways, from the front sentinel to the rear one. */
    ghost predicate LinkedAs(ns: seq<Node>)
      reads this`front, this`rear, ns
    {
      && |ns| >= 2 && ns[0] == front && ns[|ns| - 1] == rear && rear.next == rear
      && Chain(ns) && Distinct(ns)
    }

    ghost predicate Linked()
      reads this`front, this`rear, this`nodes, nodes
    {
      LinkedAs(nodes)
    }

    /** Well-formed: the links are right and the cached size is the number of items. */
    ghost predicate Valid()
      reads this, nodes
    {
      Linked() && size == |nodes| - 2
    }

    ghost function Items(): seq<Node>
      requires |nodes| >= 2
      reads this
    {
      nodes[1..|nodes| - 1]
    }

    lemma Ends()
      requires Linked()
      ensures |nodes| >= 2 && front.next == nodes[1] && rear.prev == nodes[|nodes| - 2]
    {
      assert nodes[0].next == nodes[1];
    }

    /** init_list */
    constructor (err: array<byte>)
      ensures Valid() && Items() == [] && fresh(front) && fresh(rear)
      ensures front.key == rear.key == err
    {
      var f := new Node(err);
      var r := new Node(err);
      front, rear, size := f, r, 0;
      nodes := [f, r];
      new;
      front.next := rear;
      rear.prev := front;
      front.prev := front.prev;
      rear.next := rear;
    }

    /** reset_list: the items are cut off, whatever state the links are in. The list is
        well-formed afterwards exactly if `rear` still points to itself, which is not repaired. */
    method ResetList()
      requires front != rear
      modifies this`size, this`nodes, front`next, rear`prev
      ensures nodes == [front, rear] && size == 0 && front.next == rear && rear.prev == front
      ensures Valid() <==> rear.next == rear
    {
      front.next := rear;
      rear.prev := front;
      size := 0;
      nodes := [front, rear];
    }

    /** Inserts exactly between two adjacent nodes, or changes nothing. */
    method Between(item: array<byte>, b: Node, n: Node, ghost k: nat, allocates: bool) returns (code: int)
      requires Linked() && 0 < k < |nodes| && nodes[k] == n
      modifies this`size, this`nodes, nodes`prev, nodes`next
      ensures Linked() && front == old(front) && rear == old(rear)
      ensures code == if !allocates then 1 else if b != old(nodes)[k - 1] then -1 else 0
      ensures code != 0 ==> nodes == old(nodes) && size == old(size)
      ensures code == 0 ==> size == old(size) + 1
      ensures code == 0 ==> |nodes| == |old(nodes)| + 1 && fresh(nodes[k]) && nodes[k].key == item
      ensures code == 0 ==> nodes[..k] == old(nodes)[..k] && nodes[k + 1..] == old(nodes)[k..]
    {
      if !allocates {
        return 1;
      }
      assert n.prev == nodes[k - 1];
      if b != n.prev {
        return -1;
      }
      var element := new Node(item);
      Link(b, element, n);
      size := size + 1;
      ghost var before, after := nodes[..k], nodes[k..];
      assert Chain(before) && Chain(after);
      LinkedByParts(before, element, after);
      nodes := before + [element] + after;
      code := 0;
    }

    /** The four assignments of between. */
    static method Link(b: Node, element: Node, n: Node)
      requires element != b && element != n
      modifies b`next, element`prev, element`next, n`prev
      ensures b.next == element && element.prev == b && element.next == n && n.prev == element
    {
      b.next := element;
      element.prev := b;
      element.next := n;
      n.prev := element;
    }

    lemma LinkedByParts(before: seq<Node>, element: Node, after: seq<Node>)
      requires before != [] && after != [] && Chain(before) && Chain(after) && Distinct(before + after)
      requires element !in before && element !in after
      requires before[0] == front && after[|after| - 1] == rear && rear.next == rear
      requires before[|before| - 1].next == element && element.prev == before[|before| - 1]
      requires element.next == after[0] && after[0].prev == element
      ensures LinkedAs(before + [element] + after)
    {
      ChainJoins(before, [element]);
      ChainJoins(before + [element], after);
      DistinctInsert(before, element, after);
    }

    method Enqueue(item: array<byte>, allocates: bool) returns (code: int)
      requires Linked()
      modifies this`size, this`nodes, nodes`prev, nodes`next
      ensures Linked() && front == old(front) && rear == old(rear)
      ensures code == (if allocates then 0 else 1)
      ensures code != 0 ==> nodes == old(nodes) && size == old(size)
      ensures code == 0 ==> size == old(size) + 1 && |nodes| == |old(nodes)| + 1
      ensures code == 0 ==> nodes == old(nodes[..|nodes| - 1]) + [nodes[|nodes| - 2], rear]
      ensures code == 0 ==> fresh(nodes[|nodes| - 2]) && nodes[|nodes| - 2].key == item
    {
      Ends();
      code := Between(item, rear.prev, rear, |nodes| - 1, allocates);
    }

    /** Unlinks any item; the sentinels, and everything while the size says zero, stay. */
    method RemoveItem(element: Node, ghost k: nat) returns (val: Node?)
      requires Linked() && k < |nodes| && nodes[k] == element
      modifies this`size, this`nodes, nodes`prev, nodes`next
      ensures Linked() && front == old(front) && rear == old(rear)
      ensures val == if k == 0 || k == |old(nodes)| - 1 || old(size) == 0 then null else element
      ensures val == null ==> nodes == old(nodes) && size == old(size)
      ensures val != null ==> nodes == old(nodes)[..k] + old(nodes)[k + 1..] && size == old(size) - 1
    {
      if element == front || element == rear || size == 0 {
        return null;
      }
      assert element.next == nodes[k + 1] && element.prev == nodes[k - 1];
      var n, p := element.next, element.prev;
      n.prev := p;
      p.next := n;
      size := size - 1;
      nodes := nodes[..k] + nodes[k + 1..];
      val := element;
    }

    method Dequeue() returns (val: Node?)
      requires Valid()
      modifies this`size, this`nodes, nodes`prev, nodes`next
      ensures Valid() && front == old(front) && rear == old(rear)
      ensures old(Items()) == [] ==> val == null && nodes == old(nodes)
      ensures old(Items()) != [] ==> val == old(nodes)[1] && nodes == [front] + old(nodes)[2..]
    {
      Ends();
      val := RemoveItem(front.next, 1);
    }

    /** Two chains that share no node, ready to be spliced before `rear`. */
    static ghost predicate Spliceable(pushNode: Node, targetNode: Node, targetEnd: Node, rear: Node,
                                      a: seq<Node>, b: seq<Node>)
      reads a, b
    {
      && a != [] && pushNode == a[|a| - 1] && targetNode !in a && targetEnd !in a
      && (b != [] ==> targetNode == b[0] && targetEnd == b[|b| - 1])
      && rear !in a && rear !in b && targetNode != rear
      && Distinct(a) && Distinct(b) && Apart(a, b) && Chain(a) && Chain(b)
    }

    /** The four assignments of concat_list; they write no link inside two chains that share no node. */
    static method Splice(pushNode: Node, targetNode: Node, targetEnd: Node, rear: Node,
                         ghost a: seq<Node>, ghost b: seq<Node>)
      modifies pushNode`next, targetNode`prev, targetEnd`next, rear`prev
      ensures pushNode.next == if targetEnd == pushNode then rear else targetNode
      ensures targetNode.prev == if targetNode == rear then targetEnd else pushNode
      ensures targetEnd.next == rear && rear.prev == targetEnd
      ensures old(Spliceable(pushNode, targetNode, targetEnd, rear, a, b)) ==> Chain(a) && Chain(b)
    {
      pushNode.next := targetNode;
      targetNode.prev := pushNode;
      targetEnd.next := rear;
      rear.prev := targetEnd;
    }

    /** Two lists that have a node in common end in the same sentinel. */
    static lemma SharedEnd(ns: seq<Node>, ms: seq<Node>, i: nat, j: nat)
      requires Chain(ns) && Distinct(ns) && Chain(ms) && Distinct(ms)
      requires i < |ns| && j < |ms| && ns[i] == ms[j]
      requires ns[|ns| - 1].next == ns[|ns| - 1] && ms[|ms| - 1].next == ms[|ms| - 1]
      ensures ns[|ns| - 1] == ms[|ms| - 1]
      decreases |ns| - i
    {
      assert i < |ns| - 1 ==> ns[i].next == ns[i + 1] != ns[i];
      assert j < |ms| - 1 ==> ms[j].next == ms[j + 1] != ms[j];
      if i < |ns| - 1 && j < |ms| - 1 {
        SharedEnd(ns, ms, i + 1, j + 1);
      }
    }

    lemma ShareNothing(target: List)
      requires Linked() && target.Linked() && rear != target.rear
      ensures Apart(nodes, target.nodes)
    {
      forall i, j | 0 <= i < |nodes| && 0 <= j < |target.nodes| ensures nodes[i] != target.nodes[j] {
        if nodes[i] == target.nodes[j] {
          SharedEnd(nodes, target.nodes, i, j);
        }
      }
    }

    lemma ReadyToSplice(target: List)
      requires Linked() && target.Linked() && rear != target.rear
      ensures rear.prev == nodes[|nodes| - 2] && target.front.next == target.nodes[1]
      ensures target.rear.prev == target.nodes[|target.nodes| - 2]
      ensures target.front !in nodes && target.rear !in nodes && target.rear.next == target.rear
      ensures target.rear !in target.nodes[..|target.nodes| - 1]
      ensures Spliceable(rear.prev, target.front.next, target.rear.prev, rear,
                         nodes[..|nodes| - 1], target.Items())
    {
      ShareNothing(target);
      Slice(nodes, 0, |nodes| - 1);
      Slice(target.nodes, 1, |target.nodes| - 1);
      Ends();
      target.Ends();
      assert target.nodes[0] !in nodes && target.nodes[|target.nodes| - 1] !in nodes;
    }

    lemma SentinelsOutside(target: List)
      requires Linked() && target.Linked() && rear != target.rear
      ensures |nodes| >= 2 && |target.nodes| >= 2
      ensures var joined := nodes[..|nodes| - 1] + target.Items() + [rear];
        target.front !in joined && target.rear !in joined
    {
      ReadyToSplice(target);
    }

    /** The reads and the four assignments, with the list as it then stands. */
    method SpliceIn(target: List)
      requires Linked() && target.Linked()
      modifies nodes`prev, nodes`next, target.nodes`prev, target.nodes`next
      ensures rear != target.rear && |target.nodes| > 2 ==>
        LinkedAs(nodes[..|nodes| - 1] + target.Items() + [rear])
      ensures rear != target.rear && |target.nodes| == 2 ==> Severed(nodes, target.rear)
      ensures rear == target.rear ==> Knotted(target.nodes[1], old(rear.prev))
      ensures rear == target.rear ==> forall n :: n in nodes ==>
        n.next == old(n.next) && (n == target.nodes[1] || n.prev == old(n.prev))
    {
      ghost var a, b := nodes[..|nodes| - 1], target.Items();
      Ends();
      target.Ends();
      if rear == target.rear {
        Splice(rear.prev, target.front.next, target.rear.prev, rear, [], []);
        return;
      }
      ReadyToSplice(target);
      Splice(rear.prev, target.front.next, target.rear.prev, rear, a, b);
      if |target.nodes| > 2 {
        JoinsUp(a, b);
      }
    }

    /** The first node has the last one behind it. */
    ghost predicate Knotted(first: Node, last: Node?)
      reads this`rear, first, rear
    {
      rear.prev == last && first.prev == last
    }

    lemma JoinsUp(a: seq<Node>, b: seq<Node>)
      requires a != [] && b != [] && Chain(a) && Chain(b) && a[0] == front
      requires Distinct(a) && Distinct(b) && Apart(a, b) && rear !in a && rear !in b
      requires a[|a| - 1].next == b[0] && b[0].prev == a[|a| - 1]
      requires b[|b| - 1].next == rear && rear.prev == b[|b| - 1] && rear.next == rear
      ensures LinkedAs(a + b + [rear])
    {
      ChainJoins(a, b);
      ChainJoins(a + b, [rear]);
      DistinctJoin(a, b, rear);
    }

    /** Takes over the target's items by four assignments, whatever the target holds. If the two
        share their rear sentinel, as a list does with itself, no link changes but one: the
        target's first node now has the last item behind it. */
    method ConcatList(target: List)
      requires Valid() && target.Valid()
      modifies this`size, this`nodes, nodes`prev, nodes`next, target.nodes`prev, target.nodes`next
      ensures front == old(front) && rear == old(rear) && size == old(size) + old(target.size)
      ensures rear != target.rear && old(target.Items()) != [] ==>
        && Valid() && nodes == old(nodes[..|nodes| - 1] + target.Items()) + [rear]
        && target.front !in nodes && target.rear !in nodes
      ensures rear != target.rear && old(target.Items()) == [] ==>
        nodes == old(nodes) && Severed(nodes, target.rear)
      ensures rear == target.rear ==> nodes == old(nodes) && Knotted(old(target.nodes[1]), old(rear.prev))
      ensures rear == target.rear ==> forall n :: n in nodes ==>
        n.next == old(n.next) && (n == old(target.nodes[1]) || n.prev == old(n.prev))
    {
      hide LinkedAs, Chain, Distinct, Severed, Knotted, Apart;
      Ends();
      target.Ends();
      ghost var a, b := nodes[..|nodes| - 1], target.Items();
      if rear != target.rear {
        SentinelsOutside(target);
      }
      SpliceIn(target);
      size := size + target.size;
      if rear != target.rear && b != [] {
        nodes := a + b + [rear];
      }
    }

    /** A list that has been spliced into itself, holding an item, is well-formed under no reading
        of its nodes at all. */
    lemma SelfSpliceIsNeverLinked(first: Node, last: Node?, other: seq<Node>)
      requires front.next == first && Knotted(first, last) && last != front
      ensures !LinkedAs(other)
    {
      if Chained(other) {
        assert other[0].next == other[1] == first;
      }
    }

    /** The forward links leave `ns` before its last node and run into `dead`, which points to itself. */
    ghost predicate Severed(ns: seq<Node>, dead: Node)
      reads this`front, this`rear, ns, dead
    {
      && |ns| >= 2 && ns[0] == front && ns[|ns| - 1] == rear && Distinct(ns) && Chain(ns[..|ns| - 1])
      && ns[|ns| - 2].next == dead && dead.next == dead && dead !in ns
    }

    /** A severed list is well-formed under no reading of its nodes at all. */
    lemma SeveredIsNeverLinked(ns: seq<Node>, dead: Node, other: seq<Node>)
      requires Severed(ns, dead)
      ensures !LinkedAs(other)
    {
      if Chained(other) {
        FollowsAlong(ns, dead, other, |ns| - 2);
        if |other| > |ns| {
          assert other[|ns| - 1] == other[|ns|] == dead;
        }
      }
    }

    ghost predicate Chained(ns: seq<Node>)
      reads this, ns
    {
      |ns| >= 2 && ns[0] == front && forall i :: 0 <= i < |ns| - 1 ==> ns[i].next == ns[i + 1]
    }

    lemma FollowsAlong(ns: seq<Node>, dead: Node, other: seq<Node>, k: nat)
      requires Severed(ns, dead) && Chained(other) && k <= |ns| - 2
      ensures forall i :: 0 <= i <= k && i < |other| ==> other[i] == ns[i]
    {
      if k == 0 {
      } else {
        FollowsAlong(ns, dead, other, k - 1);
        if k < |other| {
          assert other[k - 1].next == other[k] && ns[k - 1].next == ns[k];
        }
      }
    }

    /** memcmp over two whole nodes */
    predicate SameStruct(a: Node, b: Node)
      reads a, b
    {
      a.key == b.key && a.prev == b.prev && a.next == b.next
    }

    ghost predicate SameKey(n: Node, key: array<byte>)
      requires n.key.Length >= PREFIX && key.Length >= PREFIX
      reads n, n.key, key
    {
      n.key[..PREFIX] == key[..PREFIX]
    }

    /** The first item with the key, or `rear`: the comparison of a whole node with `rear`
        that can also end the loop never does, because no item has the same `prev` as `rear`. */
    method Find(key: array<byte>) returns (p: Node)
      requires Linked() && key.Length >= PREFIX
      requires forall i :: 0 < i < |nodes| - 1 ==> nodes[i].key.Length >= PREFIX
      ensures exists k :: 0 < k < |nodes| && p == nodes[k] && (forall i :: 0 < i < k ==> !SameKey(nodes[i], key))
                          && (p == rear <==> k == |nodes| - 1)
      ensures p != rear ==> p.key.Length >= PREFIX && SameKey(p, key)
    {
      Ends();
      p := front.next;
      ghost var k := 1;
      while p != rear
        invariant 0 < k < |nodes| && p == nodes[k]
        invariant forall i :: 0 < i < k ==> !SameKey(nodes[i], key)
        decreases |nodes| - k
      {
        assert nodes[k].next == nodes[k + 1];
        assert nodes[k].prev == nodes[k - 1] != nodes[|nodes| - 2] == rear.prev;
        if SameStruct(p, rear) {
          break;
        }
        if p.key[..PREFIX] == key[..PREFIX] {
          break;
        }
        p, k := p.next, k + 1;
      }
    }

    /** Whatever the cached size was, it is the number of items afterwards. */
    method RepairSize()
      requires Linked()
      modifies this`size
      ensures Valid() && nodes == old(nodes)
    {
      var nd, sz := front.next, 0;
      ghost var k := 1;
      while nd != rear
        invariant 0 < k < |nodes| && nd == nodes[k] && sz == k - 1
        decreases |nodes| - k
      {
        sz := sz + 1;
        nd, k := nd.next, k + 1;
      }
      size := sz;
    }

    method Full() returns (code: int)
      requires Valid()
      ensures code == if |Items()| == 100 then 1 else 0
    {
      code := if size == LST_MAX then 1 else 0;
    }
  }
}
