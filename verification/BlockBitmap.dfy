/** The free-block bitmap.  The byte index of a block's bit is truncated to eight bits, so
    two blocks 2048 apart under the same bitmap block share one bit. */
module BlockBitmap {
  import opened Basics
  import opened DiskLayout

  /** `uint8_t id_2 = j / 8`, with j the block's index under its bitmap block. */
  function ByteIndex(p: nat): (i: nat)
    ensures i < BLOCK_SIZE
  {
    p % BPB / 8 % 256
  }

  predicate Taken(d: Image, p: nat)
    requires p < BLOCK_NUM
  {
    TestBit(d[BBlock(p)][ByteIndex(p)], p % 8)
  }

  function Mark(d: Image, p: nat): Image
    requires p < BLOCK_NUM
  {
    var b := d[BBlock(p)];
    d[BBlock(p) := b[ByteIndex(p) := SetBit(b[ByteIndex(p)], p % 8)]]
  }

  /** Blocks p and q are guarded by the same bit. */
  predicate SameBit(p: nat, q: nat) {
    p / BPB == q / BPB && p % 2048 == q % 2048
  }

  lemma UnderBitmapBlock(p: nat)
    ensures p % 8 == p % BPB % 8 && p % 2048 == p % BPB % 2048
  {
    var q, r := p / BPB, p % BPB;
    EightsAside(512 * q, r);
    BitmapsAside(2 * q, r);
  }

  lemma EightsAside(a: nat, r: nat)
    ensures (8 * a + r) % 8 == r % 8
  {
  }

  lemma BitmapsAside(a: nat, r: nat)
    ensures (2048 * a + r) % 2048 == r % 2048
  {
  }

  lemma BitUnderBlock(r: nat)
    requires r < BPB
    ensures r % 2048 == 8 * (r / 8 % 256) + r % 8
  {
    var s, t := r / 8, r % 8;
    assert r == 8 * s + t;
    if s < 256 {
      assert s % 256 == s && r % 2048 == r;
    } else {
      assert s % 256 == s - 256 && r % 2048 == r - 2048;
    }
  }

  /** The truncated byte index and the bit number together are p modulo 2048. */
  lemma BitPosition(p: nat)
    ensures p % 2048 == 8 * ByteIndex(p) + p % 8
  {
    UnderBitmapBlock(p);
    BitUnderBlock(p % BPB);
  }

  lemma SameBitMeaning(p: nat, q: nat)
    requires p < BLOCK_NUM && q < BLOCK_NUM
    ensures SameBit(p, q) <==> BBlock(p) == BBlock(q) && ByteIndex(p) == ByteIndex(q) && p % 8 == q % 8
  {
    BitPosition(p);
    BitPosition(q);
    SameDigits(ByteIndex(p), p % 8, ByteIndex(q), q % 8);
  }

  lemma SameDigits(a: nat, b: nat, c: nat, e: nat)
    requires b < 8 && e < 8
    ensures 8 * a + b == 8 * c + e <==> a == c && b == e
  {
  }

  lemma MarkMeaning(d: Image, p: nat, q: nat)
    requires p < BLOCK_NUM && q < BLOCK_NUM
    ensures Taken(Mark(d, p), q) <==> Taken(d, q) || SameBit(p, q)
  {
    SameBitMeaning(p, q);
    SetBitSetsOneBit(d[BBlock(p)][ByteIndex(p)], p % 8, q % 8);
  }

  /** First block at or after p whose bit is clear, or 0. */
  function FirstFree(d: Image, p: nat): (id: nat32)
    requires p >= 1
    ensures id != 0 ==> p <= id < BLOCK_NUM && !Taken(d, id)
    ensures id != 0 ==> forall q :: p <= q < id ==> Taken(d, q)
    ensures id == 0 ==> forall q :: p <= q < BLOCK_NUM ==> Taken(d, q)
    decreases BLOCK_NUM - p
  {
    if p >= BLOCK_NUM then 0
    else if !Taken(d, p) then p
    else FirstFree(d, p + 1)
  }

  /** alloc_block: the new image and the allocated id, 0 when the disk is full. */
  function Alloc(d: Image): (Image, nat32) {
    var id := FirstFree(d, FIRST_DATA);
    if id == 0 then (d, 0) else (Mark(d, id), id)
  }

  /** k successive allocations, in order. */
  function AllocMany(d: Image, k: nat): (r: (Image, seq<nat32>))
    ensures |r.1| == k
  {
    if k == 0 then (d, [])
    else
      var (d1, ids) := AllocMany(d, k - 1);
      var (d2, id) := Alloc(d1);
      (d2, ids + [id])
  }

  /** The bits that still guard free space, each named by (bitmap block, bit). */
  ghost function FreeBits(d: Image): set<(nat, nat)> {
    set i: nat, j: nat | i < 8 && j < 2048 && !Taken(d, i * BPB + j) :: (i, j)
  }

  ghost function BitOf(p: nat): (nat, nat) {
    (p / BPB, p % 2048)
  }

  // ---- what allocation does ----

  /** Every free bit guards some block of the data region. */
  lemma FreeBitHasBlock(d: Image, i: nat, j: nat) returns (p: nat)
    requires i < 8 && j < 2048 && !Taken(d, i * BPB + j)
    ensures FIRST_DATA <= p < BLOCK_NUM && BitOf(p) == (i, j) && !Taken(d, p)
  {
    var q := i * BPB + j;
    BitOfBlock(i, j);
    p := if q < FIRST_DATA then q + 2048 else q;
    assert q < FIRST_DATA ==> i == 0;
    SameBitMeaning(q, p);
  }

  lemma FreeBlockHasBit(d: Image, p: nat)
    requires p < BLOCK_NUM && !Taken(d, p)
    ensures BitOf(p) in FreeBits(d)
  {
    var (i, j) := BitOf(p);
    assert i < 8 && SameBit(i * BPB + j, p);
    SameBitMeaning(i * BPB + j, p);
  }

  /** The block handed out is the lowest one of the data region whose bit is clear, and its bit
      is set then; with none the disk stays as it is. */
  lemma AllocTakesLowest(d: Image)
    ensures
      var (d', id) := Alloc(d);
      && (id != 0 ==> FIRST_DATA <= id < BLOCK_NUM && !Taken(d, id) && Taken(d', id))
      && (forall q :: FIRST_DATA <= q < (if id != 0 then id else BLOCK_NUM) ==> Taken(d, q))
      && (id == 0 ==> d' == d)
  {
    if Alloc(d).1 != 0 {
      MarkMeaning(d, Alloc(d).1, Alloc(d).1);
    }
  }

  /** An allocation fails exactly when no bit is free; otherwise it uses up one bit. */
  lemma AllocUsesOneBit(d: Image)
    ensures Alloc(d).1 == 0 <==> FreeBits(d) == {}
    ensures Alloc(d).1 != 0 ==> BitOf(Alloc(d).1) in FreeBits(d)
    ensures Alloc(d).1 != 0 ==> FreeBits(Alloc(d).0) == FreeBits(d) - {BitOf(Alloc(d).1)}
  {
    var id := Alloc(d).1;
    if id == 0 {
      if FreeBits(d) != {} {
        var b :| b in FreeBits(d);
        var p := FreeBitHasBlock(d, b.0, b.1);
        assert false;
      }
    } else {
      FreeBlockHasBit(d, id);
      MarkedFreeBits(d, id);
    }
  }

  lemma BitOfBlock(i: nat, j: nat)
    requires i < 8 && j < 2048
    ensures i * BPB + j < BLOCK_NUM && BitOf(i * BPB + j) == (i, j)
  {
    assert (i * BPB + j) / BPB == i;
    assert (i * BPB + j) % 2048 == j;
  }

  lemma MarkedBit(d: Image, id: nat, i: nat, j: nat)
    requires id < BLOCK_NUM && i < 8 && j < 2048
    ensures i * BPB + j < BLOCK_NUM
    ensures Taken(Mark(d, id), i * BPB + j) <==> Taken(d, i * BPB + j) || (i, j) == BitOf(id)
  {
    BitOfBlock(i, j);
    MarkMeaning(d, id, i * BPB + j);
    assert SameBit(id, i * BPB + j) <==> BitOf(id) == BitOf(i * BPB + j);
  }

  lemma MarkedFreeBits(d: Image, id: nat)
    requires id < BLOCK_NUM
    ensures FreeBits(Mark(d, id)) == FreeBits(d) - {BitOf(id)}
  {
    forall b: (nat, nat) ensures b in FreeBits(Mark(d, id)) <==> b in FreeBits(d) && b != BitOf(id) {
      if b.0 < 8 && b.1 < 2048 {
        MarkedBit(d, id, b.0, b.1);
      }
    }
  }

  lemma AllocOneMore(d: Image, k: nat)
    ensures AllocMany(d, k + 1).0 == Alloc(AllocMany(d, k).0).0
    ensures AllocMany(d, k + 1).1 == AllocMany(d, k).1 + [Alloc(AllocMany(d, k).0).1]
  {
  }

  /** First a, then b allocations. */
  ghost predicate Splits(d: Image, a: nat, b: nat) {
    && AllocMany(d, a + b).0 == AllocMany(AllocMany(d, a).0, b).0
    && AllocMany(d, a + b).1 == AllocMany(d, a).1 + AllocMany(AllocMany(d, a).0, b).1
  }

  lemma SplitsFurther(d: Image, a: nat, b: nat)
    requires Splits(d, a, b)
    ensures Splits(d, a, b + 1)
  {
    AllocOneMore(d, a + b);
    AllocOneMore(AllocMany(d, a).0, b);
  }

  /** Allocations one after the other. */
  lemma {:induction false} AllocManySplit(d: Image, a: nat, b: nat)
    ensures Splits(d, a, b)
  {
    if b > 0 {
      AllocManySplit(d, a, b - 1);
      SplitsFurther(d, a, b - 1);
    }
  }

  /** Bitmap blocks are the only ones an allocation writes, and no bit is ever cleared. */
  ghost predicate OnlyMarks(d: Image, d': Image) {
    && (forall b :: 0 <= b < BLOCK_NUM && !(2 <= b < BBlock(BLOCK_NUM)) ==> d'[b] == d[b])
    && (forall p :: 0 <= p < BLOCK_NUM && Taken(d, p) ==> Taken(d', p))
  }

  lemma AllocOnlyMarks(d: Image)
    ensures OnlyMarks(d, Alloc(d).0)
  {
    var id := Alloc(d).1;
    if id != 0 {
      forall p | 0 <= p < BLOCK_NUM && Taken(d, p) ensures Taken(Mark(d, id), p) {
        MarkMeaning(d, id, p);
      }
    }
  }

  /** ids are blocks that were free in d and are now taken in d', all different. */
  ghost predicate FreshBlocks(d: Image, d': Image, ids: seq<nat32>) {
    && (forall i :: 0 <= i < |ids| ==> FIRST_DATA <= ids[i] < BLOCK_NUM && !Taken(d, ids[i]) && Taken(d', ids[i]))
    && (forall i, j :: 0 <= i < j < |ids| ==> ids[i] != ids[j])
  }

  lemma {:induction false} AllocManyOnlyMarks(d: Image, k: nat)
    ensures OnlyMarks(d, AllocMany(d, k).0)
  {
    if k > 0 {
      AllocManyOnlyMarks(d, k - 1);
      AllocOnlyMarks(AllocMany(d, k - 1).0);
    }
  }

  /** With k bits free, k allocations succeed, return different blocks that were free, and
      use up k bits. */
  lemma {:induction false} AllocManyFresh(d: Image, k: nat)
    requires k <= |FreeBits(d)|
    ensures FreshBlocks(d, AllocMany(d, k).0, AllocMany(d, k).1)
    ensures |FreeBits(AllocMany(d, k).0)| == |FreeBits(d)| - k
  {
    if k > 0 {
      var (d1, ids) := AllocMany(d, k - 1);
      var (d2, id) := Alloc(d1);
      AllocManyFresh(d, k - 1);
      AllocManyOnlyMarks(d, k - 1);
      AllocOnlyMarks(d1);
      AllocCounts(d1);
      AllocIsFresh(d, d1, ids);
    }
  }

  lemma AllocCounts(d: Image)
    requires |FreeBits(d)| > 0
    ensures Alloc(d).1 != 0 && |FreeBits(Alloc(d).0)| == |FreeBits(d)| - 1
  {
    AllocUsesOneBit(d);
    assert FreeBits(d) != {};
  }

  lemma AllocIsFresh(d: Image, d1: Image, ids: seq<nat32>)
    requires FreshBlocks(d, d1, ids) && OnlyMarks(d, d1) && Alloc(d1).1 != 0
    ensures FreshBlocks(d, Alloc(d1).0, ids + [Alloc(d1).1])
  {
    var (d2, id) := Alloc(d1);
    AllocOnlyMarks(d1);
    MarkMeaning(d1, id, id);
  }

  /** Over any series of allocations no id other than 0 is returned twice, although
      distinct blocks can share a bit. */
  lemma {:induction false} AllocNeverRepeats(d: Image, k: nat, i: nat, j: nat)
    requires i < j < k
    ensures AllocMany(d, k).1[j] != 0 ==> AllocMany(d, k).1[i] != AllocMany(d, k).1[j]
  {
    if j < k - 1 {
      AllocNeverRepeats(d, k - 1, i, j);
    } else {
      AllocatedStayTaken(d, k - 1, i);
    }
  }

  lemma {:induction false} AllocatedStayTaken(d: Image, k: nat, i: nat)
    requires i < k
    ensures
      var id := AllocMany(d, k).1[i];
      id != 0 ==> id < BLOCK_NUM && Taken(AllocMany(d, k).0, id)
  {
    var (d1, ids) := AllocMany(d, k - 1);
    AllocOnlyMarks(d1);
    if i < k - 1 {
      AllocatedStayTaken(d, k - 1, i);
    } else if Alloc(d1).1 != 0 {
      MarkMeaning(d1, Alloc(d1).1, Alloc(d1).1);
    }
  }
}
