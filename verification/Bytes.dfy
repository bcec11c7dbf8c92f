/** Disk blocks as byte strings, and the little-endian 32-bit words stored in them. */
module Bytes {
  const BSIZE: nat := 1024

  const TWO_32: nat := 0x1_0000_0000
  const TWO_31: nat := 0x8000_0000

  type Byte = x: int | 0 <= x < 256
  type U32 = x: int | 0 <= x < TWO_32
  type Block = b: seq<Byte> | |b| == BSIZE witness seq(BSIZE, _ => 0)

  const ZERO_BLOCK: Block := seq(BSIZE, _ => 0)

  datatype Option<+T> = None | Some(value: T)

  /** The i-th little-endian word of b: ((uint*)b)[i]. */
  function GetU32(b: seq<Byte>, i: nat): (v: U32)
    requires 4 * i + 4 <= |b|
  {
    var b0: int, b1: int, b2: int, b3: int := b[4 * i], b[4 * i + 1], b[4 * i + 2], b[4 * i + 3];
    b0 + 0x100 * b1 + 0x1_0000 * b2 + 0x100_0000 * b3
  }

  /** b after ((uint*)b)[i] = v. */
  function PutU32(b: seq<Byte>, i: nat, v: U32): (r: seq<Byte>)
    requires 4 * i + 4 <= |b|
    ensures |r| == |b|
  {
    b[4 * i := v % 256]
     [4 * i + 1 := v / 0x100 % 256]
     [4 * i + 2 := v / 0x1_0000 % 256]
     [4 * i + 3 := v / 0x100_0000]
  }

  /** Storing word i reads back as stored and leaves every other word alone. */
  lemma {:induction false} GetPut(b: seq<Byte>, i: nat, v: U32)
    requires 4 * i + 4 <= |b|
    ensures GetU32(PutU32(b, i, v), i) == v
    ensures forall j: nat :: j != i && 4 * j + 4 <= |b| ==> GetU32(PutU32(b, i, v), j) == GetU32(b, j)
  {
    assert v == v % 256 + 0x100 * (v / 0x100 % 256) + 0x1_0000 * (v / 0x1_0000 % 256) + 0x100_0000 * (v / 0x100_0000);
    var r := PutU32(b, i, v);
    assert forall k :: 0 <= k < |b| && !(4 * i <= k < 4 * i + 4) ==> r[k] == b[k];
  }
}
