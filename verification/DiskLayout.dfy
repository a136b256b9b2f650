/** The disk image: blocks of bytes, the layout arithmetic of inode_manager.h, the bits of
    a bitmap byte, and a block seen as little-endian 32-bit words. */
module DiskLayout {
  import opened Basics

  const BLOCK_SIZE: nat := 512
  const BLOCK_NUM: nat := 32768
  const INODE_NUM: nat := 1024
  const BPB: nat := 4096
  const IPB: nat := 3
  const NDIRECT: nat := 32
  const NINDIRECT: nat := 128
  const MAXFILE: nat := 160

  type Block = b: Bytes | |b| == BLOCK_SIZE witness seq(BLOCK_SIZE, i => 0)

  const ZERO_BLOCK: Block := seq(BLOCK_SIZE, i => 0)

  type Image = d: seq<Block> | |d| == BLOCK_NUM witness Blank()

  /** The freshly formatted disk: the constructor of `disk` zeroes it. */
  function Blank(): seq<Block> {
    seq<Block>(BLOCK_NUM, i => ZERO_BLOCK)
  }

  /** Block holding inode i. */
  function IBlock(i: nat): nat {
    BLOCK_NUM / BPB + i / IPB + 3
  }

  /** Block holding the allocation bit of block b. */
  function BBlock(b: nat): nat {
    b / BPB + 2
  }

  const FIRST_DATA: nat := IBlock(INODE_NUM)
  const LAST_INODE: nat := 1022

  /** Inodes keep clear of the data region exactly up to number 1022: the block of inode
      1023 is also the first data block. */
  lemma InodeBlocksEndBeforeData(i: nat)
    requires i < INODE_NUM
    ensures IBlock(i) < FIRST_DATA <==> i <= LAST_INODE
    ensures BBlock(BLOCK_NUM) < IBlock(i)
  {
  }

  /** Superblock and boot block, eight bitmap blocks, 342 inode blocks, then the data. */
  lemma Regions()
    ensures BBlock(0) == 2 && BBlock(BLOCK_NUM - 1) == 9 && BBlock(BLOCK_NUM) == 10
    ensures IBlock(0) == 11 && IBlock(3) == 12 && FIRST_DATA == 352
    ensures forall p :: 0 <= p && p + BPB < BLOCK_NUM ==> BBlock(p + BPB) == BBlock(p) + 1
  {
    forall p | 0 <= p && p + BPB < BLOCK_NUM ensures BBlock(p + BPB) == BBlock(p) + 1 {
      assert (p + BPB) / BPB == p / BPB + 1;
    }
  }

  // ---- bits of a byte ----

  function Pow2(n: nat): (p: nat)
    ensures p >= 1
  {
    if n == 0 then 1 else 2 * Pow2(n - 1)
  }

  /** `b >> m & 1`. */
  predicate LowBit(b: nat, m: nat) {
    if m == 0 then b % 2 == 1 else LowBit(b / 2, m - 1)
  }

  /** `b | 1 << m`. */
  function OrLowBit(b: nat, m: nat): nat {
    if m == 0 then b + 1 - b % 2 else 2 * OrLowBit(b / 2, m - 1) + b % 2
  }

  lemma EvenPower(width: nat, b: nat)
    requires width > 0 && b < Pow2(width)
    ensures b + 1 - b % 2 < Pow2(width)
  {
    assert Pow2(width) == 2 * Pow2(width - 1);
  }

  lemma {:induction false} OrLowBitFits(b: nat, m: nat, width: nat)
    requires m < width && b < Pow2(width)
    ensures OrLowBit(b, m) < Pow2(width)
  {
    if m > 0 {
      assert b / 2 < Pow2(width - 1);
      OrLowBitFits(b / 2, m - 1, width - 1);
      assert OrLowBit(b, m) <= 2 * OrLowBit(b / 2, m - 1) + 1;
    } else {
      EvenPower(width, b);
    }
  }

  lemma {:induction false} OrLowBitSetsOne(b: nat, m: nat, n: nat)
    ensures LowBit(OrLowBit(b, m), n) <==> n == m || LowBit(b, n)
  {
    if m > 0 && n > 0 {
      OrLowBitSetsOne(b / 2, m - 1, n - 1);
    }
  }

  /** `(b << k) & 0x80`: bit k counted from the most significant. */
  predicate TestBit(b: Byte, k: nat)
    requires k < 8
  {
    LowBit(b, 7 - k)
  }

  /** Bit k from the left has the weight 2 to the 7 - k. */
  lemma BitWeight(b: Byte, k: nat)
    requires k < 8
    ensures TestBit(b, k) <==> b / Pow2(7 - k) % 2 == 1
  {
    LowBitWeight(b, 7 - k);
  }

  lemma {:induction false} LowBitWeight(b: nat, m: nat)
    ensures LowBit(b, m) <==> b / Pow2(m) % 2 == 1
  {
    if m > 0 {
      LowBitWeight(b / 2, m - 1);
      DivideTwice(b, 2, Pow2(m - 1));
    }
  }

  /** `(1 << (7 - k)) | b`. */
  function SetBit(b: Byte, k: nat): Byte
    requires k < 8
  {
    assert Pow2(8) == 256 by { assert Pow2(4) == 16; }
    OrLowBitFits(b, 7 - k, 8);
    OrLowBit(b, 7 - k)
  }

  lemma SetBitSetsOneBit(b: Byte, k: nat, j: nat)
    requires k < 8 && j < 8
    ensures TestBit(SetBit(b, k), j) <==> j == k || TestBit(b, j)
  {
    OrLowBitSetsOne(b, 7 - k, 7 - j);
  }

  // ---- a block as little-endian words ----

  function WordBytes(x: nat32): (b: Bytes)
    ensures |b| == 4
  {
    [x % 256, x / 256 % 256, x / 65536 % 256, x / 16777216 % 256]
  }

  function WordAt(b: Bytes, i: nat): (x: nat32)
    requires 4 * i + 4 <= |b|
  {
    b[4 * i] as int + b[4 * i + 1] as int * 256 + b[4 * i + 2] as int * 65536 + b[4 * i + 3] as int * 16777216
  }

  function Words(b: Bytes): (ws: seq<nat32>)
    requires |b| % 4 == 0
    ensures |ws| == |b| / 4
  {
    seq(|b| / 4, i requires 0 <= i < |b| / 4 => WordAt(b, i))
  }

  function FromWords(ws: seq<nat32>): (b: Bytes)
    ensures |b| == 4 * |ws|
  {
    seq(4 * |ws|, k requires 0 <= k < 4 * |ws| => WordBytes(ws[k / 4])[k % 4])
  }

  lemma WordRoundTrip(x: nat32)
    ensures WordAt(WordBytes(x), 0) == x
  {
    var a, b, c := x / 256, x / 65536, x / 16777216;
    assert x == 256 * a + x % 256;
    assert a == 256 * b + a % 256;
    assert b == 256 * c + b % 256;
  }

  lemma FromWordsAt(ws: seq<nat32>, i: nat, r: nat)
    requires i < |ws| && r < 4
    ensures FromWords(ws)[4 * i + r] == WordBytes(ws[i])[r]
  {
    assert (4 * i + r) / 4 == i && (4 * i + r) % 4 == r;
  }

  lemma TopByte(x: nat32)
    ensures x / 16777216 < 256
  {
  }

  lemma BytesOfWord(x: nat32)
    ensures WordBytes(x)[0] == x % 256 && WordBytes(x)[1] == x / 256 % 256
    ensures WordBytes(x)[2] == x / 65536 % 256 && WordBytes(x)[3] == x / 16777216
  {
    TopByte(x);
  }

  /** Byte k of a word has the weight 256 to the k. */
  lemma LittleEndian(ws: seq<nat32>, i: nat)
    requires i < |ws|
    ensures
      var b, x := FromWords(ws)[4 * i..4 * i + 4], ws[i];
      b == [x % 256, x / 256 % 256, x / 65536 % 256, x / 16777216]
  {
    FromWordsAt(ws, i, 0);
    FromWordsAt(ws, i, 1);
    FromWordsAt(ws, i, 2);
    FromWordsAt(ws, i, 3);
    assert FromWords(ws)[4 * i..4 * i + 4] == WordBytes(ws[i]);
    BytesOfWord(ws[i]);
  }

  lemma WordBack(ws: seq<nat32>, i: nat)
    requires i < |ws|
    ensures WordAt(FromWords(ws), i) == ws[i]
  {
    FromWordsAt(ws, i, 0);
    FromWordsAt(ws, i, 1);
    FromWordsAt(ws, i, 2);
    FromWordsAt(ws, i, 3);
    SameBytesSameWord(FromWords(ws), i, WordBytes(ws[i]));
    WordRoundTrip(ws[i]);
  }

  lemma WordsRoundTrip(ws: seq<nat32>)
    ensures Words(FromWords(ws)) == ws
  {
    var vs := Words(FromWords(ws));
    forall i | 0 <= i < |ws| ensures vs[i] == ws[i] {
      WordBack(ws, i);
    }
  }

  lemma SameBytesSameWord(b: Bytes, i: nat, c: Bytes)
    requires 4 * i + 4 <= |b| && |c| == 4
    requires b[4 * i + 0] == c[0] && b[4 * i + 1] == c[1] && b[4 * i + 2] == c[2] && b[4 * i + 3] == c[3]
    ensures WordAt(b, i) == WordAt(c, 0)
  {
  }
}
