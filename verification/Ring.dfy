/**
 The circular buffer that both tunnels share: a block of `cells`, a read
 position and a write position, with one cell always kept free.  Pointers are
 indices from the start of the block.  The tunnels advance a pointer first and
 wrap it in a second statement, so `SpaceFree` is also defined on a pointer that
 still stands one past the end.
 */
module Rings {
  import opened Bytes

  datatype Ring = Ring(cells: seq<byte>, rp: nat, wp: nat)

  predicate Wf(r: Ring) {
    r.rp < |r.cells| && r.wp < |r.cells|
  }

  function SpaceFree(size: nat, rp: nat, wp: nat): int
    requires wp <= size && 0 < size
  {
    if rp == wp then size - 1 else (rp + size - wp) % size - 1
  }

  function Wrap(p: nat, size: nat): nat {
    if p == size then 0 else p
  }

  /** The queued bytes, oldest first. */
  function Pending(r: Ring): seq<byte>
    requires Wf(r)
  {
    if r.rp <= r.wp then r.cells[r.rp..r.wp] else r.cells[r.rp..] + r.cells[..r.wp]
  }

  /** How many bytes one read call moves when the ring is not empty. */
  function ReadCount(r: Ring, count: nat): (k: nat)
    requires Wf(r)
    ensures k <= count && r.rp + k <= |r.cells|
  {
    if r.wp > r.rp then Min(count, r.wp - r.rp) else Min(count, |r.cells| - r.rp)
  }

  /** The free cells, counted without the modulus; one cell always stays empty. */
  function Room(r: Ring): nat
    requires Wf(r)
  {
    if r.rp <= r.wp then r.rp + |r.cells| - r.wp - 1 else r.rp - r.wp - 1
  }

  /** How many bytes one write call has room for. */
  function WriteCount(r: Ring, count: nat): (k: nat)
    requires Wf(r)
    ensures k <= count && r.wp + k <= |r.cells|
  {
    var c := Min(count, Room(r));
    if r.wp >= r.rp then Min(c, |r.cells| - r.wp) else Min(c, r.rp - r.wp - 1)
  }

  /** The cells after `data` has been copied in at offset `at`. */
  function Overwrite(cells: seq<byte>, at: nat, data: seq<byte>): (r: seq<byte>)
    requires at + |data| <= |cells|
    ensures |r| == |cells|
  {
    cells[..at] + data + cells[at + |data|..]
  }

  /** The kernel's block copy into the ring. */
  method CopyInto(block: array<byte>, at: nat, src: seq<byte>)
    requires at + |src| <= block.Length
    modifies block
    ensures block[..] == Overwrite(old(block[..]), at, src)
  {
    forall i | 0 <= i < |src| {
      block[at + i] := src[i];
    }
  }

  /** A copy changes the cells it covers and no other. */
  lemma OverwriteAt(cells: seq<byte>, at: nat, data: seq<byte>, i: nat)
    requires at + |data| <= |cells| && i < |cells|
    ensures Overwrite(cells, at, data)[i] == if at <= i < at + |data| then data[i - at] else cells[i]
  {
  }

  function Consumed(r: Ring, k: nat): Ring
    requires Wf(r) && r.rp + k <= |r.cells|
  {
    r.(rp := Wrap(r.rp + k, |r.cells|))
  }

  function Produced(r: Ring, data: seq<byte>): Ring
    requires Wf(r) && r.wp + |data| <= |r.cells|
  {
    Ring(Overwrite(r.cells, r.wp, data), r.rp, Wrap(r.wp + |data|, |r.cells|))
  }

  /** A write of `count` bytes whose copy faults: some of its cells hold `junk`. */
  function Faulted(r: Ring, count: nat, junk: seq<byte>): Ring
    requires Wf(r)
  {
    r.(cells := Overwrite(r.cells, r.wp, junk[..Min(WriteCount(r, count), |junk|)]))
  }

  // ----- the queue behind the pointers

  lemma SpaceByCases(size: nat, rp: nat, wp: nat)
    requires 0 < size && rp <= size && wp <= size && rp != wp
    requires rp < size || 0 < wp
    requires wp < size || 0 < rp
    ensures SpaceFree(size, rp, wp) == if rp > wp then rp - wp - 1 else rp + size - wp - 1
  {
    if rp > wp {
      assert rp + size - wp == size + (rp - wp);
      assert (size + (rp - wp)) % size == rp - wp;
    }
  }

  /** `spacefree` computes the room that is left, through its modulus. */
  lemma SpaceIsRoom(r: Ring)
    requires Wf(r)
    ensures SpaceFree(|r.cells|, r.rp, r.wp) == Room(r)
  {
    if r.rp != r.wp {
      SpaceByCases(|r.cells|, r.rp, r.wp);
    }
  }

  /** Free space and queued bytes always add up to one less than the block. */
  lemma RoomAndPending(r: Ring)
    requires Wf(r)
    ensures Room(r) + |Pending(r)| == |r.cells| - 1
    ensures Pending(r) == [] <==> r.rp == r.wp
  {
  }

  lemma WrapModulo(x: nat, n: nat)
    requires x < n + n
    ensures x % n == if x < n then x else x - n
  {
    if x >= n {
      assert x % n == (x - n) % n;
    }
  }

  /** The queue read off the cells modulo the size, without the two-part case split. */
  lemma PendingIsCircular(r: Ring, k: nat)
    requires Wf(r)
    ensures |Pending(r)| == (r.wp + |r.cells| - r.rp) % |r.cells|
    ensures k < |Pending(r)| ==> Pending(r)[k] == r.cells[(r.rp + k) % |r.cells|]
  {
    WrapModulo(r.wp + |r.cells| - r.rp, |r.cells|);
    if k < |Pending(r)| {
      WrapModulo(r.rp + k, |r.cells|);
    }
  }

  /** A read is cut short only at the end of the queue or of the block. */
  lemma ReadStopsAtEnd(r: Ring, count: nat)
    requires Wf(r) && r.rp != r.wp
    ensures var k := ReadCount(r, count);
      k < count ==> r.rp + k == if r.rp < r.wp then r.wp else |r.cells|
  {
  }

  /** One read takes a prefix of the queue: it moves at least a byte when asked for one. */
  lemma ReadTakesPrefix(r: Ring, count: nat)
    requires Wf(r) && r.rp != r.wp
    ensures var k := ReadCount(r, count);
            && k <= count && k <= |Pending(r)| && r.rp + k <= |r.cells|
            && (count > 0 ==> k > 0)
            && Wf(Consumed(r, k))
            && Pending(r) == r.cells[r.rp..r.rp + k] + Pending(Consumed(r, k))
  {
    var k := ReadCount(r, count);
    var r' := Consumed(r, k);
    if r.wp < r.rp {
      if r.rp + k == |r.cells| {
        assert r.cells[r.rp..] == r.cells[r.rp..r.rp + k];
        assert Pending(r') == r.cells[..r.wp];
      } else {
        assert r.cells[r.rp..] == r.cells[r.rp..r.rp + k] + r.cells[r.rp + k..];
      }
    } else {
      assert r.cells[r.rp..r.wp] == r.cells[r.rp..r.rp + k] + r.cells[r.rp + k..r.wp];
    }
  }

  /** One write appends to the queue: it takes at least a byte when there is room for one. */
  lemma WriteAppends(r: Ring, data: seq<byte>)
    requires Wf(r) && |data| == WriteCount(r, |data|)
    ensures r.wp + |data| <= |r.cells| && Wf(Produced(r, data))
    ensures Pending(Produced(r, data)) == Pending(r) + data
  {
    hide Overwrite, Pending;
    OverwriteParts(r.cells, r.wp, data);
    if r.rp <= r.wp {
      AppendsAhead(r, Produced(r, data).cells, data);
    } else {
      AppendsBehind(r, Produced(r, data).cells, data);
    }
  }

  lemma OverwriteParts(cells: seq<byte>, at: nat, data: seq<byte>)
    requires at + |data| <= |cells|
    ensures var c := Overwrite(cells, at, data); var end := at + |data|;
      && c[end..] == cells[end..]
      && forall lo | 0 <= lo <= at :: c[lo..end] == cells[lo..at] + data
  {
  }

  /** The queue ends at `wp`, and the data go behind it up to the end of the block. */
  lemma AppendsAhead(r: Ring, c: seq<byte>, data: seq<byte>)
    requires Wf(r) && |c| == |r.cells| && r.rp <= r.wp && r.wp + |data| <= |c|
    requires r.rp == 0 ==> r.wp + |data| < |c|
    requires c[r.rp..r.wp + |data|] == r.cells[r.rp..r.wp] + data
    ensures Pending(Ring(c, r.rp, Wrap(r.wp + |data|, |c|))) == Pending(r) + data
  {
    if r.wp + |data| == |c| {
      assert c[r.rp..] == c[r.rp..r.wp + |data|];
    }
  }

  /** The queue runs round the end of the block, and the data go before its beginning. */
  lemma AppendsBehind(r: Ring, c: seq<byte>, data: seq<byte>)
    requires Wf(r) && |c| == |r.cells| && r.wp + |data| < r.rp
    requires c[r.wp + |data|..] == r.cells[r.wp + |data|..] && c[0..r.wp + |data|] == r.cells[0..r.wp] + data
    ensures Pending(Ring(c, r.rp, Wrap(r.wp + |data|, |c|))) == Pending(r) + data
  {
    var end := r.wp + |data|;
    assert c[r.rp..] == c[end..][r.rp - end..] == r.cells[r.rp..];
    assert c[..end] == r.cells[..r.wp] + data;
  }

  /** A write is cut short only where the ring is full or the block ends. */
  lemma WriteCountFacts(r: Ring, count: nat)
    requires Wf(r)
    ensures var k := WriteCount(r, count);
            && k <= count && r.wp + k <= |r.cells|
            && k <= Room(r)
            && WriteCount(r, k) == k
            && (k < count ==> k == Room(r) || r.wp + k == |r.cells|)
            && (count > 0 && Room(r) > 0 ==> k > 0)
  {
  }

  /** A user copy that faults halfway has touched free cells only. */
  lemma FaultedWriteKeepsQueue(r: Ring, count: nat, junk: seq<byte>)
    requires Wf(r) && |junk| <= WriteCount(r, count)
    ensures r.wp + |junk| <= |r.cells|
    ensures Pending(r.(cells := Overwrite(r.cells, r.wp, junk))) == Pending(r)
  {
    var c := Overwrite(r.cells, r.wp, junk);
    assert r.rp <= r.wp ==> c[r.rp..r.wp] == r.cells[r.rp..r.wp];
    assert r.rp > r.wp ==> c[r.rp..] == r.cells[r.rp..] && c[..r.wp] == r.cells[..r.wp];
  }

  // ----- how many calls a whole transfer takes

  /** A write that was cut short stopped at the end of the block; the rest fits in one more. */
  lemma SecondWriteFits(r: Ring, count: nat)
    requires Wf(r) && WriteCount(r, count) < count <= Room(r)
    ensures r.wp + WriteCount(r, count) == |r.cells| && r.rp <= r.wp
    ensures count - WriteCount(r, count) < r.rp
  {
  }

  lemma SecondWriteCount(r: Ring, data: seq<byte>)
    requires Wf(r) && |data| <= Room(r)
    ensures var a := WriteCount(r, |data|);
      && Wf(Produced(r, data[..a]))
      && WriteCount(Produced(r, data[..a]), |data| - a) == |data| - a
  {
    var a := WriteCount(r, |data|);
    if a < |data| {
      SecondWriteFits(r, |data|);
    }
  }

  /** Whatever fits is accepted whole by two uninterrupted writes, in order. */
  lemma TwoWritesSuffice(r: Ring, data: seq<byte>)
    requires Wf(r) && |data| <= Room(r)
    ensures var a := WriteCount(r, |data|);
            && a <= |data| && r.wp + a <= |r.cells| && Wf(Produced(r, data[..a]))
            && var r1 := Produced(r, data[..a]);
            && WriteCount(r1, |data| - a) == |data| - a
            && r1.wp + (|data| - a) <= |r.cells| && Wf(Produced(r1, data[a..]))
            && Pending(Produced(r1, data[a..])) == Pending(r) + data
  {
    hide Room, Pending, WriteCount;
    var a := WriteCount(r, |data|);
    WriteCountFacts(r, |data|);
    SecondWriteCount(r, data);
    WriteAppends(r, data[..a]);
    var r1 := Produced(r, data[..a]);
    WriteAppends(r1, data[a..]);
    assert (Pending(r) + data[..a]) + data[a..] == Pending(r) + data;
  }

  /** Two uninterrupted reads with a large enough buffer drain the whole queue, in order. */
  lemma TwoReadsSuffice(r: Ring, count: nat)
    requires Wf(r) && r.rp != r.wp && |Pending(r)| <= count
    ensures var a := ReadCount(r, count);
            && r.rp + a <= |r.cells| && Wf(Consumed(r, a))
            && var r1 := Consumed(r, a);
            && (r1.rp == r1.wp ==> Pending(r) == r.cells[r.rp..r.rp + a])
            && (r1.rp != r1.wp ==>
                  var b := ReadCount(r1, count - a);
                  && r1.rp + b <= |r.cells|
                  && Pending(r) == r.cells[r.rp..r.rp + a] + r.cells[r1.rp..r1.rp + b]
                  && Wf(Consumed(r1, b))
                  && Pending(Consumed(r1, b)) == [])
  {
    var a := ReadCount(r, count);
    ReadTakesPrefix(r, count);
    var r1 := Consumed(r, a);
    if r1.rp != r1.wp {
      ReadTakesPrefix(r1, count - a);
    }
  }
}
