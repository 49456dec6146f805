// Masking a byte with one less than a power of two takes its remainder.
module Masks {
  lemma LowBits3(x: bv8)
    ensures (x & 7) as int == x as int % 8
  {
    assert x & 7 == x % 8;
  }

  lemma LowBits4(x: bv8)
    ensures (x & 15) as int == x as int % 16
  {
    assert x & 15 == x % 16;
  }

  lemma LowBits5(x: bv8)
    ensures (x & 31) as int == x as int % 32
  {
    assert x & 31 == x % 32;
  }

  lemma LowBits6(x: bv8)
    ensures (x & 63) as int == x as int % 64
  {
    assert x & 63 == x % 64;
  }

  lemma LowBits7(x: bv8)
    ensures (x & 127) as int == x as int % 128
  {
    assert x & 127 == x % 128;
  }

  lemma LowBits(x: bv8, n: int, mask: bv8)
    requires n in {8, 16, 32, 64, 128}
    requires mask == if n == 8 then 7 else if n == 16 then 15 else if n == 32 then 31 else if n == 64 then 63 else 127
    ensures (x & mask) as int == x as int % n
  {
    LowBits3(x);
    LowBits4(x);
    LowBits5(x);
    LowBits6(x);
    LowBits7(x);
  }

  lemma MaskOf(n: int)
    requires n in {8, 16, 32, 64, 128}
    ensures (n - 1) as bv8
         == if n == 8 then 7 else if n == 16 then 15 else if n == 32 then 31 else if n == 64 then 63 else 127
  {
  }

  lemma NextBits(x: bv8)
    requires x != 255
    ensures (x + 1) as int == x as int + 1 && ((x + 1) as int) as bv8 == x + 1
  {
  }

  lemma {:induction false} ByteAsBits(b: int)
    requires 0 <= b < 256
    ensures (b as bv8) as int == b
  {
    if b == 0 {
    } else {
      ByteAsBits(b - 1);
      NextBits((b - 1) as bv8);
    }
  }

  // The bits of a byte that are set in one less than the number of buckets.
  function Masked(b: int, n: int): int
    requires 0 <= b < 256 && n in {8, 16, 32, 64, 128}
  {
    ((b as bv8) & ((n - 1) as bv8)) as int
  }

  lemma MaskedRemainder(b: int, n: int)
    requires 0 <= b < 256 && n in {8, 16, 32, 64, 128}
    ensures Masked(b, n) == ((b as bv8) & ((n - 1) as bv8)) as int == b % n
  {
    var x, mask := b as bv8, (n - 1) as bv8;
    ByteAsBits(b);
    MaskOf(n);
    LowBits(x, n, mask);
  }
}
