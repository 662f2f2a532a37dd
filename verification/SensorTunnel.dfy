/**
 The sensor tunnel as one process sees it: the byte pipe of pod/driver/sensor_tun.c,
 with no other process running between the steps of a call.  A call that would go
 to sleep reports `WouldSleep` here; SensorProtocol says what happens then.
 */
module SensorTunnels {
  import opened Bytes
  import opened Rings

  datatype Mode = Mode(read: bool, write: bool)

  /** What a read or a write call gives back: a byte count, -EAGAIN, sleep, or -EFAULT. */
  datatype Moved = Moved(count: nat) | Again | WouldSleep | Fault

  class SensorTunnel {
    const capacity: nat  // the module parameter car_p_buffer
    var buffer: array?<byte>
    var buffersize: nat
    var rp: nat
    var wp: nat
    var nreaders: int
    var nwriters: int

    ghost predicate Valid()
      reads this
    {
      && 0 < capacity
      && (buffer != null ==> buffer.Length == buffersize == capacity && rp < buffersize && wp < buffersize)
    }

    ghost function View(): (r: Ring)
      requires Valid() && buffer != null
      reads this, buffer
      ensures Wf(r)
    {
      Ring(buffer[..], rp, wp)
    }

    constructor (capacity: nat)
      requires 0 < capacity
      ensures Valid() && this.capacity == capacity
      ensures buffer == null && nreaders == nwriters == 0
    {
      this.capacity := capacity;
      buffer, buffersize, rp, wp, nreaders, nwriters := null, 0, 0, 0, 0, 0;
    }

    /** Every successful open empties the queue; a failed allocation changes nothing. */
    method Open(mode: Mode, allocates: bool) returns (ok: bool)
      requires Valid()
      modifies this
      ensures Valid()
      ensures ok == (old(buffer) != null || allocates)
      ensures !ok ==> unchanged(this)
      ensures ok ==> buffer != null && (buffer == old(buffer) || fresh(buffer))
      ensures ok ==> rp == wp == 0 && Pending(View()) == []
      ensures ok && old(buffer) != null ==> buffer == old(buffer)
      ensures ok ==> nreaders == old(nreaders) + (if mode.read then 1 else 0)
      ensures ok ==> nwriters == old(nwriters) + (if mode.write then 1 else 0)
    {
      if buffer == null {
        if !allocates {
          return false;
        }
        buffer := new byte[capacity];
      }
      buffersize := capacity;
      rp, wp := 0, 0;
      if mode.read {
        nreaders := nreaders + 1;
      }
      if mode.write {
        nwriters := nwriters + 1;
      }
      ok := true;
    }

    /** The buffer goes exactly when both open counts have come back to zero. */
    method Release(mode: Mode)
      requires Valid()
      modifies this
      ensures Valid()
      ensures nreaders == old(nreaders) - (if mode.read then 1 else 0)
      ensures nwriters == old(nwriters) - (if mode.write then 1 else 0)
      ensures buffer == if nreaders + nwriters == 0 then null else old(buffer)
      ensures rp == old(rp) && wp == old(wp) && buffersize == old(buffersize)
    {
      if mode.read {
        nreaders := nreaders - 1;
      }
      if mode.write {
        nwriters := nwriters - 1;
      }
      if nreaders + nwriters == 0 {
        buffer := null;
      }
    }

    /** A successful read hands out the oldest bytes and leaves the rest; nothing else changes the queue. */
    method Read(count: nat, nonblock: bool, faults: bool) returns (r: Moved, data: seq<byte>)
      requires Valid() && buffer != null
      modifies this`rp
      ensures Valid()
      ensures r == if Pending(old(View())) == [] then (if nonblock then Again else WouldSleep)
                   else if faults then Fault else Moved(|data|)
      ensures r.Moved? ==> |data| <= count && (count > 0 ==> data != [])
      ensures r.Moved? && |data| < count ==> old(rp) + |data| == wp || old(rp) + |data| == capacity
      ensures r.Moved? ==> |data| == ReadCount(old(View()), count) && View() == Consumed(old(View()), |data|)
      ensures r.Moved? ==> Pending(old(View())) == data + Pending(View())
      ensures !r.Moved? ==> rp == old(rp) && data == []
    {
      hide Pending, Consumed;
      RoomAndPending(View());
      if rp == wp {
        return if nonblock then Again else WouldSleep, [];
      }
      ghost var before := View();
      var k: nat;
      if wp > rp {
        k := Min(count, wp - rp);
      } else {
        k := Min(count, buffersize - rp);
      }
      ReadTakesPrefix(before, count);
      ReadStopsAtEnd(before, count);
      if faults {
        return Fault, [];
      }
      r := Moved(k);
      assert k == ReadCount(before, count);
      data := HandOut(k);
      assert Pending(before) == data + Pending(Consumed(before, k));
    }

    /** The copy to the user and the pointer advance that follows it. */
    method HandOut(k: nat) returns (data: seq<byte>)
      requires Valid() && buffer != null && rp + k <= buffersize
      modifies this`rp
      ensures Valid() && View() == Consumed(old(View()), k)
      ensures data == old(View()).cells[old(rp)..old(rp) + k]
    {
      data := buffer[rp..rp + k];
      rp := rp + k;
      if rp == buffersize {
        rp := 0;
      }
    }

    method Spacefree() returns (space: int)
      requires Valid() && buffer != null
      ensures space == Room(View()) == capacity - 1 - |Pending(View())|
    {
      SpaceIsRoom(View());
      if rp == wp {
        return buffersize - 1;
      }
      return (rp + buffersize - wp) % buffersize - 1;
    }

    /** A successful write appends a prefix of the caller's bytes; a faulting one, whatever `junk` it
        leaves where it was to copy, leaves the queue alone. */
    method Write(src: seq<byte>, nonblock: bool, faults: bool, junk: seq<byte>) returns (r: Moved)
      requires Valid() && buffer != null
      modifies this`wp, buffer
      ensures Valid() && buffer == old(buffer)
      ensures |Pending(old(View()))| == capacity - 1 <==> r == (if nonblock then Again else WouldSleep)
      ensures |Pending(old(View()))| < capacity - 1 ==>
        r == if faults then Fault else Moved(WriteCount(old(View()), |src|))
      ensures r.Moved? ==> r.count <= |src| && (src != [] ==> r.count > 0)
      ensures r.Moved? && r.count < |src| ==> r.count == Room(old(View())) || old(wp) + r.count == capacity
      ensures r.Moved? ==> View() == Produced(old(View()), src[..r.count])
      ensures r.Moved? ==> Pending(View()) == Pending(old(View())) + src[..r.count]
      ensures !r.Moved? ==> wp == old(wp) && Pending(View()) == Pending(old(View()))
      ensures r == Again || r == WouldSleep ==> View() == old(View())
      ensures r == Fault ==> View() == Faulted(old(View()), |src|, junk)
    {
      ghost var before := View();
      var space := Spacefree();
      if space == 0 {
        return if nonblock then Again else WouldSleep;
      }
      WriteCountFacts(before, |src|);
      var k := Min(|src|, space);
      if wp >= rp {
        k := Min(k, buffersize - wp);
      } else {
        k := Min(k, rp - wp - 1);
      }
      assert k == WriteCount(before, |src|);
      if faults {
        var left := junk[..Min(k, |junk|)];
        CopyInto(buffer, wp, left);
        FaultedWriteKeepsQueue(before, |src|, left);
        assert View() == Faulted(before, |src|, junk);
        return Fault;
      }
      CopyInto(buffer, wp, src[..k]);
      WriteAppends(before, src[..k]);
      wp := wp + k;
      if wp == buffersize {
        wp := 0;
      }
      assert View() == Produced(before, src[..k]);
      r := Moved(k);
    }

    /** The mask is set exactly where a one-byte call would move that byte now. */
    method Poll() returns (readable: bool, writable: bool)
      requires Valid() && buffer != null
      ensures readable <==> Pending(View()) != [] && ReadCount(View(), 1) == 1
      ensures writable <==> |Pending(View())| < capacity - 1 && WriteCount(View(), 1) == 1
    {
      var space := Spacefree();
      WriteCountFacts(View(), 1);
      return rp != wp, space != 0;
    }
  }
}
