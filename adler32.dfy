/**
 The Adler-32 checksum of section 2.2 of RFC 1950, which PHP's
 `hash('adler32', ...)` computes. Two running sums modulo 65521 are folded
 over the bytes from left to right; the checksum packs the second sum into
 the high 16 bits and the first into the low 16 bits.
 */
module Adler32 {

  /** A PHP string is a sequence of bytes. */
  type byte = x: nat | x < 256
  type Bytes = seq<byte>

  /** The largest prime below 2^16. */
  const BASE: nat := 65521

  /** The two running sums: s1 starts at 1, s2 at 0. */
  datatype Sums = Sums(s1: nat, s2: nat)

  /** One byte of the fold: s1 += b, then s2 += s1, both modulo BASE. */
  function Step(s: Sums, b: byte): (r: Sums)
    ensures r.s1 < BASE && r.s2 < BASE
  {
    var s1 := (s.s1 + b) % BASE;
    Sums(s1, (s.s2 + s1) % BASE)
  }

  /** The sums after folding every byte of `data`, first byte first. */
  function Run(data: Bytes): (r: Sums)
    decreases |data|
  {
    if data == [] then Sums(1, 0)
    else Step(Run(data[..|data| - 1]), data[|data| - 1])
  }

  /** Plain sum of the bytes. */
  function Sum(data: Bytes): nat
  {
    if data == [] then 0 else data[0] + Sum(data[1..])
  }

  /** Weighted sum: the byte at index i counts |data| - i times. */
  function Weighted(data: Bytes): nat
  {
    if data == [] then 0 else |data| * data[0] + Weighted(data[1..])
  }

  /** The 32-bit checksum, s2 * 65536 + s1. */
  function Checksum(data: Bytes): (r: nat)
    ensures r < 0x1_0000_0000
  {
    Run(data).s2 * 0x1_0000 + Run(data).s1
  }

  /**
   The checksum in closed form: the low half is one plus the sum of the
   bytes, the high half |data| plus the weighted sum, both modulo BASE.
   */
  lemma ChecksumClosedForm(data: Bytes)
    ensures Checksum(data) % 0x1_0000 == (1 + Sum(data)) % BASE
    ensures Checksum(data) / 0x1_0000 == (|data| + Weighted(data)) % BASE
  {
    RunClosedForm(data);
  }

  /** Byte strings with equal plain and weighted sums and equal lengths collide. */
  lemma SameSumsCollide(x: Bytes, y: Bytes)
    requires |x| == |y| && Sum(x) == Sum(y) && Weighted(x) == Weighted(y)
    ensures Checksum(x) == Checksum(y)
  {
    RunClosedForm(x);
    RunClosedForm(y);
  }

  lemma {:induction false} SumSnoc(data: Bytes, b: byte)
    ensures Sum(data + [b]) == Sum(data) + b
  {
    if data != [] {
      assert (data + [b])[1..] == data[1..] + [b];
      SumSnoc(data[1..], b);
    }
  }

  lemma {:induction false} WeightedSnoc(data: Bytes, b: byte)
    ensures Weighted(data + [b]) == Weighted(data) + Sum(data) + b
  {
    if data != [] {
      var tail := data[1..];
      assert (data + [b])[1..] == tail + [b];
      WeightedSnoc(tail, b);
      calc {
        Weighted(data + [b]);
        (|data| + 1) * data[0] + Weighted(tail + [b]);
        (|data| + 1) * data[0] + Weighted(tail) + Sum(tail) + b;
        |data| * data[0] + Weighted(tail) + (data[0] + Sum(tail)) + b;
      }
    }
  }

  /** Adding a multiple of BASE does not change a residue. */
  lemma {:induction false} ModShift(q: nat, x: nat)
    ensures (q * BASE + x) % BASE == x % BASE
  {
    if q > 0 {
      ModShift(q - 1, x);
      assert q * BASE + x == ((q - 1) * BASE + x) + BASE;
    }
  }

  lemma ModAdd(a: nat, b: nat)
    ensures (a % BASE + b) % BASE == (a + b) % BASE
  {
    var q := a / BASE;
    assert a == q * BASE + a % BASE;
    ModShift(q, a % BASE + b);
  }

  /**
   The fold computes the closed form of the two sums: s1 is one plus the
   sum of the bytes and s2 is |data| plus the weighted sum, both modulo BASE.
   */
  lemma {:induction false} RunClosedForm(data: Bytes)
    ensures Run(data).s1 == (1 + Sum(data)) % BASE
    ensures Run(data).s2 == (|data| + Weighted(data)) % BASE
    decreases |data|
  {
    if data != [] {
      var p, b := data[..|data| - 1], data[|data| - 1];
      assert data == p + [b];
      RunClosedForm(p);
      SumSnoc(p, b);
      WeightedSnoc(p, b);
      var a1 := 1 + Sum(p);
      var a2 := |p| + Weighted(p);
      ModAdd(a1, b);
      assert Run(data).s1 == (a1 + b) % BASE;
      ModAdd(a2, Run(data).s1);
      ModAdd(a1 + b, a2);
      assert Run(data).s2 == (a2 + a1 + b) % BASE;
    }
  }
}
