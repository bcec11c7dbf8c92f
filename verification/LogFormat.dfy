/** The on-disk log: header block layout, installation of a committed log, and
    the meaning of a disk after recovery. */
module LogFormat {
  import opened Bytes

  const MAXOPBLOCKS: nat := 10
  const LOGSIZE: nat := MAXOPBLOCKS * 3

  type Disk = seq<Block>

  /** The disk has `blocks` blocks; the superblock puts the log header in block
      `start` and the log blocks after it, up to start+size-1. */
  datatype RawGeometry = Geometry(start: nat, size: nat, blocks: nat)

  type Geometry = g: RawGeometry | 1 <= g.size && g.start + g.size <= g.blocks < TWO_32
    witness Geometry(0, 1, 1)

  predicate InLog(g: Geometry, b: int) {
    g.start <= b < g.start + g.size
  }

  /** Home blocks are the blocks of the disk outside the log area. */
  predicate Home(g: Geometry, b: int) {
    0 <= b < g.blocks && !InLog(g, b)
  }

  ghost predicate SameHome(g: Geometry, d: Disk, e: Disk) {
    |d| == |e| == g.blocks && forall b :: Home(g, b) ==> d[b] == e[b]
  }

  predicate Distinct(s: seq<U32>) {
    s == [] || (s[|s| - 1] !in s[..|s| - 1] && Distinct(s[..|s| - 1]))
  }

  lemma {:induction false} DistinctAt(s: seq<U32>, k: nat)
    requires Distinct(s) && k < |s|
    ensures s[k] !in s[..k]
    ensures s[k] !in s[k + 1..]
  {
    var n := |s| - 1;
    if k < n {
      DistinctAt(s[..n], k);
      assert s[..n][..k] == s[..k];
      assert s[k + 1..] == s[..n][k + 1..] + [s[n]];
    }
  }

  /** A list of block numbers that log_write can have built. */
  predicate GoodHead(g: Geometry, lh: seq<U32>) {
    && |lh| <= LOGSIZE
    && |lh| < g.size
    && Distinct(lh)
    && forall i :: 0 <= i < |lh| ==> Home(g, lh[i])
  }

  // ----- header block -----

  /** The header's `int n`, as a signed word. */
  function HeadCount(b: Block): (n: int) {
    var u := GetU32(b, 0);
    if u < TWO_31 then u else u - TWO_32
  }

  /** read_head: the first n entries of the header's block array; n <= 0 reads none. */
  function GetHead(b: Block): (lh: seq<U32>)
    requires HeadCount(b) <= LOGSIZE
    ensures HeadCount(b) >= 0 ==> |lh| == HeadCount(b)
  {
    var n := HeadCount(b);
    seq(if n < 0 then 0 else n, i requires 0 <= i < LOGSIZE => GetU32(b, i + 1))
  }

  /** The first k entries of lh stored after the count. */
  function PutEntries(b: Block, lh: seq<U32>, k: nat): (r: Block)
    requires k <= |lh| <= LOGSIZE
  {
    if k == 0 then b else PutU32(PutEntries(b, lh, k - 1), k, lh[k - 1])
  }

  /** write_head: the header buffer after the count and the entries are stored;
      words beyond the last entry keep their old contents. */
  function PutHead(b: Block, lh: seq<U32>): (r: Block)
    requires |lh| <= LOGSIZE
  {
    PutEntries(PutU32(b, 0, |lh|), lh, |lh|)
  }

  lemma {:induction false} PutEntriesWords(b: Block, lh: seq<U32>, k: nat, w: nat)
    requires k <= |lh| <= LOGSIZE
    requires 4 * w + 4 <= BSIZE
    ensures GetU32(PutEntries(b, lh, k), w) == if 1 <= w <= k then lh[w - 1] else GetU32(b, w)
  {
    if k > 0 {
      PutEntriesWords(b, lh, k - 1, w);
      GetPut(PutEntries(b, lh, k - 1), k, lh[k - 1]);
    }
  }

  /** The header round trip: whatever the buffer held before, reading the
      header that write_head stored gives back exactly the in-memory list. */
  lemma {:induction false} HeadRoundTrip(b: Block, lh: seq<U32>)
    requires |lh| <= LOGSIZE
    ensures HeadCount(PutHead(b, lh)) == |lh|
    ensures GetHead(PutHead(b, lh)) == lh
  {
    var c := PutU32(b, 0, |lh|);
    GetPut(b, 0, |lh|);
    PutEntriesWords(c, lh, |lh|, 0);
    var r := PutHead(b, lh);
    forall i | 0 <= i < |lh| ensures GetU32(r, i + 1) == lh[i] {
      PutEntriesWords(c, lh, |lh|, i + 1);
    }
    assert GetHead(r) == lh;
  }

  // ----- recovery -----

  /** base after the first k log blocks of src are copied to their home locations. */
  function Installed(g: Geometry, base: Disk, src: Disk, lh: seq<U32>, k: nat): (r: Disk)
    requires |base| == |src| == g.blocks && GoodHead(g, lh) && k <= |lh|
    ensures |r| == |base|
  {
    if k == 0 then base else Installed(g, base, src, lh, k - 1)[lh[k - 1] := src[g.start + k]]
  }

  predicate GoodLog(g: Geometry, d: Disk) {
    && |d| == g.blocks
    && 0 <= HeadCount(d[g.start]) <= LOGSIZE
    && GoodHead(g, GetHead(d[g.start]))
  }

  /** What recover_from_log makes of a disk. */
  function Recovered(g: Geometry, d: Disk): (r: Disk)
    requires GoodLog(g, d)
    ensures |r| == |d|
  {
    var lh := GetHead(d[g.start]);
    Installed(g, d, d, lh, |lh|)[g.start := PutHead(d[g.start], [])]
  }

  /** Every block listed in lh has its target contents in the log, and every
      other home block has them in place. */
  ghost predicate LogHolds(g: Geometry, d: Disk, lh: seq<U32>, target: Disk)
    requires |d| == |target| == g.blocks && GoodHead(g, lh)
  {
    && (forall j :: 0 <= j < |lh| ==> d[g.start + 1 + j] == target[lh[j]])
    && (forall b {:trigger target[b]} :: Home(g, b) && b !in lh ==> d[b] == target[b])
  }

  /** Recovery would turn d into target's home contents. */
  ghost predicate RecoversTo(g: Geometry, d: Disk, target: Disk) {
    && GoodLog(g, d)
    && |d| == |target|
    && LogHolds(g, d, GetHead(d[g.start]), target)
  }

  lemma {:induction false} InstalledBlocks(g: Geometry, base: Disk, src: Disk, lh: seq<U32>, k: nat)
    requires |base| == |src| == g.blocks && GoodHead(g, lh) && k <= |lh|
    ensures forall j :: 0 <= j < k ==> Installed(g, base, src, lh, k)[lh[j]] == src[g.start + 1 + j]
    ensures forall b :: 0 <= b < g.blocks && b !in lh[..k] ==> Installed(g, base, src, lh, k)[b] == base[b]
    ensures forall b :: InLog(g, b) ==> Installed(g, base, src, lh, k)[b] == base[b]
  {
    if k > 0 {
      InstalledBlocks(g, base, src, lh, k - 1);
      DistinctAt(lh, k - 1);
      assert lh[..k] == lh[..k - 1] + [lh[k - 1]];
      assert forall j :: 0 <= j < k - 1 ==> lh[..k - 1][j] == lh[j];
      assert Home(g, lh[k - 1]);
    }
  }

  lemma {:induction false} RecoverySound(g: Geometry, d: Disk, target: Disk)
    requires RecoversTo(g, d, target)
    ensures SameHome(g, Recovered(g, d), target)
  {
    var lh := GetHead(d[g.start]);
    InstalledBlocks(g, d, d, lh, |lh|);
    assert lh[..|lh|] == lh;
  }

  lemma {:induction false} RecoveryComplete(g: Geometry, d: Disk, target: Disk)
    requires GoodLog(g, d) && SameHome(g, Recovered(g, d), target)
    ensures RecoversTo(g, d, target)
  {
    var lh := GetHead(d[g.start]);
    InstalledBlocks(g, d, d, lh, |lh|);
    var i := Installed(g, d, d, lh, |lh|);
    assert forall b :: Home(g, b) ==> i[b] == target[b];
    assert lh[..|lh|] == lh;
  }

  /** RecoversTo is exactly "recovery produces target", stated without running it. */
  lemma {:induction false} RecoveredHome(g: Geometry, d: Disk, target: Disk)
    requires GoodLog(g, d)
    ensures RecoversTo(g, d, target) <==> SameHome(g, Recovered(g, d), target)
  {
    if RecoversTo(g, d, target) { RecoverySound(g, d, target); }
    if SameHome(g, Recovered(g, d), target) { RecoveryComplete(g, d, target); }
  }
}
