/** Bits of a free-map block: data[bi/8] & (1 << (bi % 8)). */
module Bitmap {
  import opened Bytes

  const BPB: nat := 8192

  /** 1 << k */
  function Pow2(k: nat): (p: nat)
    ensures p > 0
  {
    if k == 0 then 1 else 2 * Pow2(k - 1)
  }

  /** n & (1 << k) is not 0. */
  predicate Bit(n: nat, k: nat) {
    if k == 0 then n % 2 == 1 else Bit(n / 2, k - 1)
  }

  lemma {:induction false} SetOne(n: nat, k: nat, m: nat)
    requires !Bit(n, k) && n < Pow2(m) && k < m
    ensures n + Pow2(k) < Pow2(m) && Bit(n + Pow2(k), k)
  {
    if k > 0 {
      SetOne(n / 2, k - 1, m - 1);
      assert (n + Pow2(k)) / 2 == n / 2 + Pow2(k - 1);
    }
  }

  lemma {:induction false} ClearOne(n: nat, k: nat)
    requires Bit(n, k)
    ensures n >= Pow2(k) && !Bit(n - Pow2(k), k)
  {
    if k > 0 {
      ClearOne(n / 2, k - 1);
      assert (n - Pow2(k)) / 2 == n / 2 - Pow2(k - 1);
    }
  }

  lemma {:induction false} OtherBit(n: nat, k: nat, j: nat)
    requires !Bit(n, k) && j != k
    ensures Bit(n + Pow2(k), j) == Bit(n, j)
  {
    if k == 0 {
      assert (n + 1) / 2 == n / 2;
    } else if j == 0 {
      assert (n + Pow2(k)) % 2 == n % 2;
    } else {
      OtherBit(n / 2, k - 1, j - 1);
      assert (n + Pow2(k)) / 2 == n / 2 + Pow2(k - 1);
    }
  }

  predicate GetBit(b: Block, i: nat)
    requires i < BPB
  {
    Bit(b[i / 8], i % 8)
  }

  lemma {:induction false} BitFits(n: nat, k: nat)
    requires n < 256 && k < 8
    ensures !Bit(n, k) ==> n + Pow2(k) < 256 && Bit(n + Pow2(k), k)
    ensures Bit(n, k) ==> n >= Pow2(k) && !Bit(n - Pow2(k), k)
  {
    assert Pow2(8) == 256 by { assert Pow2(4) == 16; }
    if Bit(n, k) {
      ClearOne(n, k);
    } else {
      SetOne(n, k, 8);
    }
  }

  /** data[i/8] |= 1 << (i % 8), or &= ~(1 << (i % 8)) */
  function PutBit(b: Block, i: nat, on: bool): (r: Block)
    requires i < BPB
  {
    BitFits(b[i / 8], i % 8);
    var n: int := b[i / 8];
    b[i / 8 := if GetBit(b, i) == on then n else if on then n + Pow2(i % 8) else n - Pow2(i % 8)]
  }

  /** Writing one bit changes that bit and no other. */
  lemma {:induction false} PutGetBit(b: Block, i: nat, on: bool, j: nat)
    requires i < BPB && j < BPB
    ensures GetBit(PutBit(b, i, on), j) == if j == i then on else GetBit(b, j)
  {
    var k, n: nat := i % 8, b[i / 8];
    BitFits(n, k);
    if j / 8 == i / 8 && j != i {
      if GetBit(b, i) {
        OtherBit(n - Pow2(k), k, j % 8);
      } else {
        OtherBit(n, k, j % 8);
      }
    }
  }
}
