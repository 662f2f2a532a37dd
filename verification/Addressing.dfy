/** How pod/driver/main.c splits a file offset into list item, slot and byte. */
module Addressing {

  /** The list item of an offset, with `q` bytes to a quantum and `n` quanta to an item. */
  function Item(o: nat, q: nat, n: nat): nat
    requires 0 < q && 0 < n
  {
    Positive(q, n);
    o / (q * n)
  }

  function Rest(o: nat, q: nat, n: nat): nat
    requires 0 < q && 0 < n
  {
    Positive(q, n);
    o % (q * n)
  }

  function Slot(o: nat, q: nat, n: nat): nat
    requires 0 < q && 0 < n
  {
    Rest(o, q, n) / q
  }

  function Byte(o: nat, q: nat, n: nat): nat
    requires 0 < q && 0 < n
  {
    Rest(o, q, n) % q
  }

  lemma Positive(q: nat, n: nat)
    requires 0 < q && 0 < n
    ensures 0 < q * n
  {
  }

  lemma {:induction false} Grows(a: nat, b: nat, d: nat)
    ensures a < b ==> a * d + d <= b * d
    ensures a <= b ==> a * d <= b * d
  {
    if a < b {
      Grows(a, b - 1, d);
      assert b * d == (b - 1) * d + d;
    }
  }

  /** Division is determined by its defining equation. */
  lemma DivUnique(x: nat, d: nat, k: nat, r: nat)
    requires 0 < d && x == k * d + r && r < d
    ensures x / d == k && x % d == r
  {
    Grows(k, x / d, d);
    Grows(x / d, k, d);
  }

  lemma DivBound(x: nat, d: nat, n: nat)
    requires 0 < d && x < d * n
    ensures x / d < n
  {
    Grows(n, x / d, d);
  }

  /** The two division steps agree with one division by the quantum. */
  lemma Split(o: nat, q: nat, n: nat)
    requires 0 < q && 0 < n
    ensures Slot(o, q, n) < n && Byte(o, q, n) < q
    ensures o / q == Item(o, q, n) * n + Slot(o, q, n)
    ensures o % q == Byte(o, q, n)
    ensures o == (Item(o, q, n) * n + Slot(o, q, n)) * q + Byte(o, q, n)
  {
    Positive(q, n);
    var i, rest := Item(o, q, n), Rest(o, q, n);
    var s, b := Slot(o, q, n), Byte(o, q, n);
    DivBound(rest, q, n);
    assert rest == s * q + b;
    assert o == i * (q * n) + rest;
    assert i * (q * n) == (i * n) * q;
    assert (i * n) * q + s * q == (i * n + s) * q;
    DivUnique(o, q, i * n + s, b);
  }

  /** The triple is a bijection: every triple in range is the address of exactly one offset. */
  lemma Bijection(i: nat, s: nat, b: nat, q: nat, n: nat)
    requires 0 < q && 0 < n && s < n && b < q
    ensures var o := (i * n + s) * q + b;
      Item(o, q, n) == i && Slot(o, q, n) == s && Byte(o, q, n) == b
  {
    var o := (i * n + s) * q + b;
    Positive(q, n);
    assert (i * n) * q + s * q == (i * n + s) * q;
    assert i * (q * n) == (i * n) * q;
    var rest := s * q + b;
    assert rest < q * n by {
      assert s * q <= (n - 1) * q == n * q - q;
    }
    DivUnique(o, q * n, i, rest);
    DivUnique(rest, q, s, b);
  }

  /** Two offsets share a quantum exactly when they share item and slot. */
  lemma SameQuantum(o: nat, p: nat, q: nat, n: nat)
    requires 0 < q && 0 < n
    ensures Item(o, q, n) == Item(p, q, n) && Slot(o, q, n) == Slot(p, q, n) <==> o / q == p / q
  {
    Split(o, q, n);
    Split(p, q, n);
    if o / q == p / q {
      DivUnique(o / q, n, Item(o, q, n), Slot(o, q, n));
      DivUnique(p / q, n, Item(p, q, n), Slot(p, q, n));
    }
  }

  /** Within one quantum, bytes are numbered as offsets are. */
  lemma WithinQuantum(p: nat, d: nat, q: nat)
    requires 0 < q && p % q + d < q
    ensures (p + d) / q == p / q && (p + d) % q == p % q + d
  {
    assert p + d == (p / q) * q + (p % q + d);
    DivUnique(p + d, q, p / q, p % q + d);
  }

  /** An offset of the same quantum outside a range has its byte outside the range too. */
  lemma OutsideRange(o: nat, p: nat, k: nat, q: nat)
    requires 0 < q && o / q == p / q && !(p <= o < p + k)
    ensures !(p % q <= o % q < p % q + k)
  {
    assert o == (o / q) * q + o % q && p == (p / q) * q + p % q;
  }

  lemma ItemBound(o: nat, q: nat, n: nat, length: nat)
    requires 0 < q && 0 < n && o < length * (q * n)
    ensures Item(o, q, n) < length
  {
    Positive(q, n);
    DivBound(o, q * n, length);
  }

  /** A transfer that stays inside its quantum ends inside its item. */
  lemma EndBound(p: nat, k: nat, q: nat, n: nat, length: nat)
    requires 0 < q && 0 < n && Byte(p, q, n) + k <= q && Item(p, q, n) < length
    ensures p + k <= length * (q * n)
  {
    hide Item, Slot, Byte;
    Split(p, q, n);
    var i, g := Item(p, q, n), p / q;
    assert p + k <= g * q + q;
    Grows(g, i * n + n, q);
    Grows(i, length, n);
    Grows(i * n + n, length * n, q);
    assert (length * n) * q == length * (q * n);
  }
}
