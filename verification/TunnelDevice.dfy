/** The character device of car/tunnel/driver.c: a message queue on top of the list. */
module TunnelDevices {
  import opened Bytes
  import opened Rings
  import opened TunnelLists

  const EPERM: int := 1
  const ENOMEM: int := 12
  const EFAULT: int := 14

  type Message = m: seq<byte> | |m| <= PREFIX witness []

  /** A message as the device keeps it: zeros up to the full buffer. */
  function Padded(msg: Message): (p: seq<byte>)
    ensures |p| == 512 && msg <= p
  {
    msg + seq(PREFIX - |msg|, _ => 0)
  }

  /** The message first, zeros after. */
  lemma PaddedAt(msg: Message, i: nat)
    requires i < 512
    ensures Padded(msg)[i] == if i < |msg| then msg[i] else 0
  {
  }

  function WriteCode(msg: Message, ready: bool, copies: bool): (code: int)
    ensures code < 0 <==> !copies || !ready
    ensures code == -14 <==> !copies
    ensures code == -12 <==> copies && !ready
    ensures code >= 0 ==> code == |msg|
  {
    if !copies then -EFAULT else if !ready then -ENOMEM else |msg|
  }

  function AfterWrite(queue: seq<seq<byte>>, msg: Message, copies: bool, allocates: bool): seq<seq<byte>> {
    if copies && allocates then queue + [Padded(msg)] else queue
  }

  ghost function Keys(ns: seq<Node>): set<array<byte>>
    reads ns
  {
    set n | n in ns :: n.key
  }

  /** The list holds the messages in order, one full buffer to a node. */
  ghost predicate Holds(l: List, ms: seq<seq<byte>>)
    reads l, l.nodes, Keys(l.nodes)
  {
    && l.Valid() && |ms| == |l.nodes| - 2
    && forall i :: 0 < i < |l.nodes| - 1 ==> l.nodes[i].key.Length == PREFIX && l.nodes[i].key[..] == ms[i - 1]
  }

  method Put(l: List, item: array<byte>, allocates: bool, ghost ms: seq<seq<byte>>) returns (code: int)
    requires Holds(l, ms) && item.Length == PREFIX
    modifies l, l.nodes`prev, l.nodes`next
    ensures code == if allocates then 0 else 1
    ensures Holds(l, if allocates then ms + [item[..]] else ms)
  {
    code := l.Enqueue(item, allocates);
  }

  method Take(l: List, ghost ms: seq<seq<byte>>) returns (n: Node)
    requires Holds(l, ms) && ms != []
    modifies l, l.nodes`prev, l.nodes`next
    ensures Holds(l, ms[1..]) && n.key.Length == PREFIX && n.key[..] == ms[0]
  {
    n := l.Dequeue();
  }

  /** The cleared buffer, and the message copied in unless the user copy faults. */
  method KernelBuffer(msg: Message, copies: bool) returns (buf: array<byte>)
    ensures fresh(buf) && buf.Length == PREFIX
    ensures copies ==> buf[..] == Padded(msg)
  {
    buf := new byte[PREFIX](_ => 0);
    assert buf[..] == seq(PREFIX, _ => 0);
    if copies {
      CopyInto(buf, 0, msg);
    }
  }

  class Device {
    var list: List?
    ghost var messages: seq<seq<byte>>

    ghost predicate Valid()
      reads this, list, if list == null then [] else list.nodes
      reads if list == null then {} else Keys(list.nodes)
    {
      if list == null then messages == [] else Holds(list, messages)
    }

    /** Queues the padded message. The code does not depend on whether the node was allocated:
        enqueue reports that failure as 1, and only negative codes are looked at. */
    method Write(msg: Message, copies: bool, allocates: bool) returns (code: int)
      requires Valid()
      modifies this`messages
      modifies if list == null then {} else {list}
      modifies (if list == null then [] else list.nodes)`prev, (if list == null then [] else list.nodes)`next
      ensures Valid() && list == old(list)
      ensures code == WriteCode(msg, list != null, copies)
      ensures messages == if list == null then [] else AfterWrite(old(messages), msg, copies, allocates)
    {
      var kernelBuf := KernelBuffer(msg, copies);
      if !copies {
        return -EFAULT;
      }
      if list == null {
        return -ENOMEM;
      }
      var r := Put(list, kernelBuf, allocates, messages);
      if r < 0 {
        return -ENOMEM;
      }
      if r == 0 {
        messages := messages + [Padded(msg)];
      }
      code := |msg|;
    }

    /** Takes the oldest message off the queue; a faulting user copy loses it. */
    method Read(copies: bool) returns (code: int, data: seq<byte>)
      requires Valid()
      modifies this`messages
      modifies if list == null then {} else {list}
      modifies (if list == null then [] else list.nodes)`prev, (if list == null then [] else list.nodes)`next
      ensures Valid() && list == old(list)
      ensures code == if list == null then -12 else if old(messages) == [] then -1
                      else if !copies then -14 else 512
      ensures data == if code == 512 then old(messages)[0] else []
      ensures messages == if old(messages) == [] then [] else old(messages)[1..]
    {
      data := [];
      if list == null {
        return -ENOMEM, [];
      }
      if list.size == 0 {
        return -EPERM, [];
      }
      var currentNode := Take(list, messages);
      messages := messages[1..];
      if !copies {
        return -EFAULT, [];
      }
      code, data := PREFIX, currentNode.key[..PREFIX];
    }
  }

  // ----- whole runs

  datatype Call = Write(msg: Message, copies: bool, allocates: bool) | Read(copies: bool)

  /** The queue, the padded messages whose write returned their length, those really queued,
      those taken off the queue, and those that reached a reader. */
  datatype Log = Log(queue: seq<seq<byte>>, reported: seq<seq<byte>>, stored: seq<seq<byte>>,
                     taken: seq<seq<byte>>, given: seq<seq<byte>>)

  const EMPTY := Log([], [], [], [], [])

  function Next(g: Log, c: Call): Log {
    match c
    case Write(msg, copies, allocates) =>
      Log(AfterWrite(g.queue, msg, copies, allocates),
          if WriteCode(msg, true, copies) == |msg| then g.reported + [Padded(msg)] else g.reported,
          if copies && allocates then g.stored + [Padded(msg)] else g.stored,
          g.taken, g.given)
    case Read(copies) =>
      if g.queue == [] then g
      else Log(g.queue[1..], g.reported, g.stored, g.taken + [g.queue[0]],
               if copies then g.given + [g.queue[0]] else g.given)
  }

  function Play(g: Log, calls: seq<Call>): Log
    decreases |calls|
  {
    if calls == [] then g else Play(Next(g, calls[0]), calls[1..])
  }

  /** Every message queued comes off in order. */
  lemma {:induction false} RunIsFifo(g: Log, calls: seq<Call>)
    requires g.stored == g.taken + g.queue
    ensures Play(g, calls).stored == Play(g, calls).taken + Play(g, calls).queue
    decreases |calls|
  {
    if calls == [] {
    } else {
      var h := Next(g, calls[0]);
      if calls[0].Write? {
        var m := Padded(calls[0].msg);
        assert (g.taken + g.queue) + [m] == g.taken + (g.queue + [m]);
      } else if g.queue != [] {
        assert g.taken + g.queue == (g.taken + [g.queue[0]]) + g.queue[1..];
      }
      RunIsFifo(h, calls[1..]);
    }
  }

  /** A call that loses a message without its writer learning of it: a write whose node could
      not be allocated, or a read of a waiting message whose user copy faults. */
  predicate Loses(g: Log, c: Call) {
    match c
    case Write(msg, copies, allocates) => copies && !allocates
    case Read(copies) => !copies && g.queue != []
  }

  predicate Lossless(g: Log, calls: seq<Call>)
    decreases |calls|
  {
    calls == [] || (!Loses(g, calls[0]) && Lossless(Next(g, calls[0]), calls[1..]))
  }

  /** The messages that a lost call leaves unaccounted for only ever grow in number. */
  lemma {:induction false} LossesAddUp(g: Log, calls: seq<Call>)
    ensures var h := Play(g, calls);
      var lost := |g.reported| - |g.given| - |g.queue|; var lost' := |h.reported| - |h.given| - |h.queue|;
      lost <= lost' && (lost == lost' <==> Lossless(g, calls))
    decreases |calls|
  {
    if calls == [] {
    } else {
      LossesAddUp(Next(g, calls[0]), calls[1..]);
    }
  }

  lemma {:induction false} LosslessIsFaithful(g: Log, calls: seq<Call>)
    requires g.reported == g.stored && g.given == g.taken && Lossless(g, calls)
    ensures Play(g, calls).reported == Play(g, calls).stored && Play(g, calls).given == Play(g, calls).taken
    decreases |calls|
  {
    if calls == [] {
    } else {
      LosslessIsFaithful(Next(g, calls[0]), calls[1..]);
    }
  }

  /** The messages whose writes returned their length are those given to readers followed by
      those still waiting, in order and zero-padded, exactly when no call of the run loses one. */
  lemma FaithfulIffLossless(calls: seq<Call>)
    ensures var h := Play(EMPTY, calls); h.reported == h.given + h.queue <==> Lossless(EMPTY, calls)
  {
    RunIsFifo(EMPTY, calls);
    LossesAddUp(EMPTY, calls);
    if Lossless(EMPTY, calls) {
      LosslessIsFaithful(EMPTY, calls);
    }
  }

  /** The messages of the writes that return their length. */
  function Sent(calls: seq<Call>): seq<Message>
    decreases |calls|
  {
    if calls == [] then []
    else (if calls[0].Write? && calls[0].copies then [calls[0].msg] else []) + Sent(calls[1..])
  }

  lemma ReportsOne(g: Log, c: Call)
    ensures Next(g, c).reported == g.reported + if c.Write? && c.copies then [Padded(c.msg)] else []
  {
  }

  lemma EmptySent()
    ensures Sent([]) == []
  {
  }

  lemma SentOne(calls: seq<Call>)
    requires calls != []
    ensures calls[0].Write? && calls[0].copies ==> Sent(calls) == [calls[0].msg] + Sent(calls[1..])
    ensures !(calls[0].Write? && calls[0].copies) ==> Sent(calls) == Sent(calls[1..])
  {
  }

  lemma {:induction false} ReportsSent(g: Log, calls: seq<Call>, i: nat)
    ensures var r := Play(g, calls).reported;
      && g.reported <= r && |r| == |g.reported| + |Sent(calls)|
      && (i < |Sent(calls)| ==> r[|g.reported| + i] == Padded(Sent(calls)[i]))
    decreases |calls|
  {
    hide Next, Padded, Sent;
    if calls == [] {
      EmptySent();
    } else {
      var own := if calls[0].Write? && calls[0].copies then 1 else 0;
      ReportsOne(g, calls[0]);
      SentOne(calls);
      ReportsSent(Next(g, calls[0]), calls[1..], if i < own then 0 else i - own);
    }
  }

  /** Without a losing call the i-th read hands out 512 bytes: those of the i-th message written,
      then zeros. */
  lemma ReadersSeeSent(calls: seq<Call>, i: nat, j: nat)
    requires Lossless(EMPTY, calls) && i < |Play(EMPTY, calls).given| && j < 512
    ensures i < |Sent(calls)| && |Play(EMPTY, calls).given[i]| == 512
    ensures Play(EMPTY, calls).given[i][j] == if j < |Sent(calls)[i]| then Sent(calls)[i][j] else 0
  {
    hide Play, Padded, Sent, Lossless;
    FaithfulIffLossless(calls);
    ReportsSent(EMPTY, calls, i);
    PaddedAt(Sent(calls)[i], j);
  }

  /** One write whose node cannot be allocated: it returns its length, and the message is gone. */
  lemma ReportedButLost()
    ensures var h := Play(EMPTY, [Write([7], true, false)]);
      h.reported == [Padded([7])] && h.queue == [] && h.given == []
  {
    assert Play(EMPTY, [Write([7], true, false)]) == Play(Next(EMPTY, Write([7], true, false)), []);
  }
}
