/** The ultrasonic distance sensor of car/driver/sr04.c. */
module Sonar {

  const COUNT_LIMIT: nat := 1000000
  const U32: nat := 0x1_0000_0000

  /** Sample `k` is the first one that shows `want`. */
  ghost predicate FirstAt(samples: nat -> bool, want: bool, k: nat) {
    samples(k) == want && forall i :: 0 <= i < k ==> samples(i) != want
  }

  /** A polling loop accepts exactly the changes seen in its first 999999 samples. */
  ghost predicate SeenInTime(samples: nat -> bool, want: bool) {
    exists k: nat :: k < 999999 && samples(k) == want
  }

  /** A polling loop: it counts its samples and stops at the first one that shows `want`, or
      when the limit had been reached before the sample was taken. */
  method Poll(samples: nat -> bool, want: bool) returns (counter: nat)
    ensures counter <= COUNT_LIMIT + 1
    ensures counter < COUNT_LIMIT <==> SeenInTime(samples, want)
    ensures counter <= COUNT_LIMIT ==> counter > 0 && FirstAt(samples, want, counter - 1)
    ensures counter > COUNT_LIMIT ==> forall i :: 0 <= i < COUNT_LIMIT ==> samples(i) != want
  {
    counter := 0;
    while true
      invariant 0 <= counter <= COUNT_LIMIT
      invariant forall i :: 0 <= i < counter ==> samples(i) != want
      decreases COUNT_LIMIT - counter
    {
      var c := counter;
      counter := counter + 1;
      if c >= COUNT_LIMIT || samples(c) == want {
        break;
      }
    }
  }

  /** diffTime: both stamps are cut to 32 bits, and so is their difference. */
  function DiffTime(start: nat, end: nat): nat {
    ((end % U32) - (start % U32)) % U32
  }

  /** The product is taken in a `long` of the machine's width before the division. */
  function Scaled(diff: nat, longIs64: bool): nat {
    if longIs64 then diff * 170 / 10000000 else diff * 170 % U32 / 10000000
  }

  method MeasureDistance(rise: nat -> bool, fall: nat -> bool, start: nat, end: nat, longIs64: bool)
    returns (distance: nat)
    ensures !SeenInTime(rise, true) || !SeenInTime(fall, false) ==> distance == 0
    ensures SeenInTime(rise, true) && SeenInTime(fall, false) ==> distance == Scaled(DiffTime(start, end), longIs64)
    ensures distance < U32
  {
    var counter := Poll(rise, true);
    var startTime := start % U32;
    if counter >= COUNT_LIMIT {
      return 0;
    }
    counter := Poll(fall, false);
    var endTime := end % U32;
    if counter >= COUNT_LIMIT {
      return 0;
    }
    var diffTime := (endTime - startTime) % U32;
    if longIs64 {
      distance := diffTime * 170 / 10000000;
    } else {
      distance := diffTime * 170 % U32 / 10000000;
    }
  }

  /** The difference survives the truncation up to whole turns of the 32-bit clock, and entirely
      if the stamps are less than one turn apart. */
  lemma TruncatedDifference(start: nat, end: nat)
    requires start <= end
    ensures DiffTime(start, end) == (end - start) % U32
    ensures end < start + U32 ==> DiffTime(start, end) == end - start
  {
    var s, e := start / U32, end / U32;
    assert start == s * U32 + start % U32 && end == e * U32 + end % U32;
    var d := end % U32 - start % U32;
    assert end - start == (e - s) * U32 + d;
    WholeTurns(d, e - s);
  }

  /** Whole turns do not show. */
  lemma WholeTurns(d: int, turns: int)
    ensures (d + turns * U32) % U32 == d % U32
  {
  }

  /** With a 64-bit long: the distance is floor(17 * diff / 10^6), at most 73014, and never
      falls when the echo takes longer. */
  lemma WideDistance(diff: nat, longer: nat)
    requires diff <= longer < U32
    ensures Scaled(diff, true) == 17 * diff / 1000000
    ensures Scaled(diff, true) <= Scaled(longer, true) <= 73014
  {
    assert 17 * longer / 1000000 <= 17 * (U32 - 1) / 1000000;
  }

  /** With a 32-bit long the product wraps: the result is right exactly up to 25264513 ns. */
  lemma NarrowDistance(diff: nat)
    requires diff < U32
    ensures Scaled(diff, false) == Scaled(diff, true) <==> diff <= 25264513
  {
    if diff <= 25264513 {
      assert diff * 170 < U32;
    } else {
      assert diff * 170 >= U32;
    }
  }

  /** Beyond that a 32-bit long drops whole turns of the product: at most 170 of them, and what is
      left is at most 429. */
  lemma NarrowWraps(diff: nat, turns: nat)
    requires diff < U32 && turns * U32 <= diff * 170 < (turns + 1) * U32
    ensures Scaled(diff, false) == (diff * 170 - turns * U32) / 10000000 <= 429
    ensures turns < 170
  {
    WholeTurns(diff * 170 - turns * U32, turns);
  }

  /** End to end with a 64-bit long: stamps less than 2^32 ns apart give floor(17 * time / 10^6),
      at most 73014, whatever the clock showed; a missed echo gives zero. */
  lemma DistanceOfEcho(start: nat, end: nat)
    requires start <= end < start + U32
    ensures Scaled(DiffTime(start, end), true) == 17 * (end - start) / 1000000 <= 73014
    ensures Scaled(DiffTime(start, end), false) == 17 * (end - start) / 1000000 <==> end - start <= 25264513
  {
    TruncatedDifference(start, end);
    WideDistance(end - start, end - start);
    NarrowDistance(end - start);
  }
}
