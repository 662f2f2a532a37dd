/**
 The motor tunnel of pod/driver/motor_tun.c: an ioctl queues a five-byte command frame in
 the ring, a read drains bytes from it.  `held` is the semaphore left down by the one ioctl
 path that returns without releasing it; every call made after that blocks.
 */
module MotorTunnels {
  import opened Bytes
  import opened Rings
  import opened SensorTunnels

  const CMD_STR_LEN: nat := 5

  // _IOW('G', n, struct ioctl_info) with the 136-byte structure of a 64-bit build
  const PI_CMD_LEFT: nat := 0x4088_4703
  const PI_CMD_RIGHT: nat := 0x4088_4704
  const PI_CMD_FORWARD: nat := 0x4088_4705
  const PI_CMD_BACKWARD: nat := 0x4088_4706
  const PI_CMD_STOP: nat := 0x4088_4707

  /** The texts that the header defines. */
  const FRAMES: map<nat, string> := map[
    PI_CMD_STOP := "STOP\n", PI_CMD_LEFT := "LEFT\n", PI_CMD_RIGHT := "RGHT\n",
    PI_CMD_FORWARD := "FWRD\n", PI_CMD_BACKWARD := "BKWD\n"]

  predicate Spells(f: seq<byte>, text: string) {
    |f| == |text| && forall i :: 0 <= i < |f| ==> f[i] as int == text[i] as int
  }

  function FrameOf(command: nat): (f: Option<seq<byte>>)
    ensures f.Some? <==> command in FRAMES
    ensures f.Some? ==> |f.value| == CMD_STR_LEN && Spells(f.value, FRAMES[command])
  {
    if command == PI_CMD_STOP then Some([83, 84, 79, 80, 10])
    else if command == PI_CMD_LEFT then Some([76, 69, 70, 84, 10])
    else if command == PI_CMD_RIGHT then Some([82, 71, 72, 84, 10])
    else if command == PI_CMD_FORWARD then Some([70, 87, 82, 68, 10])
    else if command == PI_CMD_BACKWARD then Some([66, 75, 87, 68, 10])
    else None
  }

  /** The real car compares four bytes against its table; anything else means stop. */
  function Decode(first: seq<byte>): (command: nat)
    ensures FrameOf(command).Some?
  {
    if first == [70, 87, 82, 68] then PI_CMD_FORWARD
    else if first == [76, 69, 70, 84] then PI_CMD_LEFT
    else if first == [82, 71, 72, 84] then PI_CMD_RIGHT
    else if first == [66, 75, 87, 68] then PI_CMD_BACKWARD
    else PI_CMD_STOP
  }

  lemma DecodeInvertsFrame(command: nat)
    requires FrameOf(command).Some?
    ensures Decode(FrameOf(command).value[..4]) == command
  {
    var f := FrameOf(command).value;
    assert f[..4] == [f[0], f[1], f[2], f[3]];
  }

  /** Four bytes mean a command other than stop exactly if its frame starts with them; all others
      mean stop. */
  lemma DecodeIsExact(first: seq<byte>, command: nat)
    requires FrameOf(command).Some? && command != PI_CMD_STOP
    ensures Decode(first) == command <==> first == FrameOf(command).value[..4]
  {
    DecodeInvertsFrame(command);
    var f := FrameOf(command).value;
    assert f[..4] == [f[0], f[1], f[2], f[3]];
  }

  /** The numbers that _IOW builds: direction, size of the structure, magic letter, number. */
  lemma CommandNumbers()
    ensures forall i :: 0 <= i < 5 ==>
      [PI_CMD_LEFT, PI_CMD_RIGHT, PI_CMD_FORWARD, PI_CMD_BACKWARD, PI_CMD_STOP][i]
        == 0x4000_0000 + (8 + 128) * 0x1_0000 + ('G' as nat) * 0x100 + (3 + i)
  {
  }

  datatype Motor = Motor(ring: Ring, held: bool)

  datatype Outcome = Accepted | Refused | NotNow | Asleep | Blocked | Faulted

  /** What lands in the ring: an unrecognised command copies nothing, so the cells that the
      write pointer passes over keep what they held. */
  function Queued(r: Ring, command: nat): (f: seq<byte>)
    requires Wf(r) && r.wp + CMD_STR_LEN <= |r.cells|
    ensures |f| == CMD_STR_LEN
  {
    if FrameOf(command).Some? then FrameOf(command).value else r.cells[r.wp..r.wp + CMD_STR_LEN]
  }

  function IoctlOutcome(m: Motor, nonblock: bool): Outcome
    requires Wf(m.ring)
  {
    if m.held then Blocked
    else if Room(m.ring) == 0 then (if nonblock then NotNow else Asleep)
    else if WriteCount(m.ring, CMD_STR_LEN) < CMD_STR_LEN then Refused
    else Accepted
  }

  function AfterIoctl(m: Motor, command: nat, nonblock: bool): (m': Motor)
    requires Wf(m.ring)
  {
    match IoctlOutcome(m, nonblock)
    case Accepted => Motor(Produced(m.ring, Queued(m.ring, command)), false)
    case Refused => Motor(m.ring, true)
    case _ => m
  }

  function ReadLength(m: Motor, count: nat): nat
    requires Wf(m.ring)
  {
    if m.held || m.ring.rp == m.ring.wp then 0 else ReadCount(m.ring, count)
  }

  class MotorTunnel {
    const capacity: nat  // the module parameter car_motor_buffer
    var buffer: array?<byte>
    var buffersize: nat
    var rp: nat
    var wp: nat
    var nreaders: int
    var nwriters: int
    var held: bool

    ghost predicate Valid()
      reads this
    {
      && 0 < capacity
      && (buffer != null ==> buffer.Length == buffersize == capacity && rp < buffersize && wp < buffersize)
    }

    ghost function View(): (m: Motor)
      requires Valid() && buffer != null
      reads this, buffer
      ensures Wf(m.ring)
    {
      Motor(Ring(buffer[..], rp, wp), held)
    }

    constructor (capacity: nat)
      requires 0 < capacity
      ensures Valid() && this.capacity == capacity && !held
      ensures buffer == null && nreaders == nwriters == 0
    {
      this.capacity := capacity;
      buffer, buffersize, rp, wp, nreaders, nwriters, held := null, 0, 0, 0, 0, 0, false;
    }

    /** An open waits for the semaphore too, so it cannot repair a tunnel whose semaphore is lost. */
    method Open(mode: Mode, allocates: bool) returns (ok: bool)
      requires Valid()
      modifies this
      ensures Valid()
      ensures ok == (!old(held) && (old(buffer) != null || allocates))
      ensures !ok ==> unchanged(this)
      ensures ok ==> buffer != null && (buffer == old(buffer) || fresh(buffer)) && rp == wp == 0 && !held
      ensures ok && old(buffer) != null ==> buffer == old(buffer)
      ensures ok ==> nreaders == old(nreaders) + (if mode.read then 1 else 0)
      ensures ok ==> nwriters == old(nwriters) + (if mode.write then 1 else 0)
    {
      if held {
        return false;
      }
      if buffer == null {
        if !allocates {
          return false;
        }
        buffer := new byte[capacity];
      }
      buffersize := capacity;
      rp, wp := 0, 0;
      if mode.read {
        nreaders := nreaders + 1;
      }
      if mode.write {
        nwriters := nwriters + 1;
      }
      ok := true;
    }

    /** The last release frees the buffer, unless the semaphore is lost and it never gets there. */
    method Release(mode: Mode)
      requires Valid()
      modifies this
      ensures Valid() && held == old(held)
      ensures old(held) ==> unchanged(this)
      ensures !held ==> nreaders == old(nreaders) - (if mode.read then 1 else 0)
      ensures !held ==> nwriters == old(nwriters) - (if mode.write then 1 else 0)
      ensures !held ==> buffer == if nreaders + nwriters == 0 then null else old(buffer)
      ensures rp == old(rp) && wp == old(wp) && buffersize == old(buffersize)
    {
      if held {
        return;
      }
      if mode.read {
        nreaders := nreaders - 1;
      }
      if mode.write {
        nwriters := nwriters - 1;
      }
      if nreaders + nwriters == 0 {
        buffer := null;
      }
    }

    method Spacefree() returns (space: int)
      requires Valid() && buffer != null
      ensures space == Room(View().ring)
    {
      SpaceIsRoom(View().ring);
      if rp == wp {
        return buffersize - 1;
      }
      return (rp + buffersize - wp) % buffersize - 1;
    }

    /** The new state and the answer are those of `AfterIoctl` and `IoctlOutcome`. */
    method Ioctl(command: nat, nonblock: bool) returns (out: Outcome)
      requires Valid() && buffer != null
      modifies this`wp, this`held, buffer
      ensures Valid() && buffer == old(buffer)
      ensures out == IoctlOutcome(old(View()), nonblock)
      ensures View() == AfterIoctl(old(View()), command, nonblock)
    {
      if held {
        return Blocked;
      }
      ghost var before := View().ring;
      var space := Spacefree();
      if space == 0 {
        return if nonblock then NotNow else Asleep;
      }
      var count := Min(CMD_STR_LEN, space);
      if wp >= rp {
        count := Min(count, buffersize - wp);
      } else {
        count := Min(count, rp - wp - 1);
      }
      assert count == WriteCount(before, CMD_STR_LEN);
      if count < CMD_STR_LEN {
        held := true;
        return Refused;
      }
      Put(command);
      wp := wp + count;
      if wp == buffersize {
        wp := 0;
      }
      out := Accepted;
    }

    /** The switch over the commands. */
    method Put(command: nat)
      requires Valid() && buffer != null && wp + CMD_STR_LEN <= buffersize
      modifies buffer
      ensures buffer[..] == Overwrite(old(buffer[..]), wp, Queued(old(View().ring), command))
    {
      if command == PI_CMD_STOP {
        CopyInto(buffer, wp, [83, 84, 79, 80, 10]);
      } else if command == PI_CMD_LEFT {
        CopyInto(buffer, wp, [76, 69, 70, 84, 10]);
      } else if command == PI_CMD_RIGHT {
        CopyInto(buffer, wp, [82, 71, 72, 84, 10]);
      } else if command == PI_CMD_FORWARD {
        CopyInto(buffer, wp, [70, 87, 82, 68, 10]);
      } else if command == PI_CMD_BACKWARD {
        CopyInto(buffer, wp, [66, 75, 87, 68, 10]);
      }
    }

    /** A read that gets the semaphore and finds data hands out the oldest `ReadLength` bytes. */
    method Read(count: nat, nonblock: bool, faults: bool) returns (out: Outcome, data: seq<byte>)
      requires Valid() && buffer != null
      modifies this`rp
      ensures Valid()
      ensures out == if held then Blocked
                     else if Pending(old(View()).ring) == [] then (if nonblock then NotNow else Asleep)
                     else if faults then Faulted else Accepted
      ensures |data| == if out.Accepted? then ReadLength(old(View()), count) else 0
      ensures out.Accepted? && |data| < count ==> old(rp) + |data| == wp || old(rp) + |data| == capacity
      ensures old(rp) + |data| <= capacity
      ensures data == old(View()).ring.cells[old(rp)..old(rp) + |data|]
      ensures View() == Motor(Consumed(old(View()).ring, |data|), held)
    {
      data := [];
      if held {
        return Blocked, [];
      }
      if rp == wp {
        return if nonblock then NotNow else Asleep, [];
      }
      var k: nat;
      if wp > rp {
        k := Min(count, wp - rp);
      } else {
        k := Min(count, buffersize - rp);
      }
      if faults {
        return Faulted, [];
      }
      out, data := Accepted, buffer[rp..rp + k];
      rp := rp + k;
      if rp == buffersize {
        rp := 0;
      }
    }

    /** Readable means that a read would hand out a byte now; writable says only that a cell is free. */
    method Poll() returns (mask: Option<(bool, bool)>)
      requires Valid() && buffer != null
      ensures mask.Some? <==> !held
      ensures mask.Some? ==> (mask.value.0 <==> ReadLength(View(), 1) == 1)
      ensures mask.Some? ==> (mask.value.1 <==> IoctlOutcome(View(), false) != Asleep)
    {
      if held {
        return None;
      }
      var space := Spacefree();
      return Some((rp != wp, space != 0));
    }
  }
}
