/** The inode table: three 152-byte inodes to a block, overwritten in place. */
module InodeTable {
  import opened Basics
  import opened DiskLayout

  const INODE_WORDS: nat := 38
  const INODE_BYTES: nat := 152

  type nat16 = x: nat | x < 65536

  /** `struct inode`: a 16-bit type padded to a word, four words, and 33 block numbers. */
  datatype Inode = Inode(typ: nat16, size: nat32, atime: nat32, mtime: nat32, ctime: nat32, blocks: seq<nat32>)

  ghost predicate WellFormed(ino: Inode) {
    |ino.blocks| == NDIRECT + 1
  }

  function InodeWords(ino: Inode): (ws: seq<nat32>)
    ensures |ws| == 5 + |ino.blocks|
  {
    [ino.typ, ino.size, ino.atime, ino.mtime, ino.ctime] + ino.blocks
  }

  /** First word of inode i within its block. */
  function Slot(i: nat): (o: nat)
    ensures o + INODE_WORDS <= BLOCK_SIZE / 4
  {
    INODE_WORDS * (i % IPB)
  }

  /** The inode held in the words of a block. */
  function InodeFrom(ws: seq<nat32>, o: nat): Inode
    requires o + INODE_WORDS <= |ws|
  {
    Inode(ws[o] % 65536, ws[o + 1], ws[o + 2], ws[o + 3], ws[o + 4], ws[o + 5..o + INODE_WORDS])
  }

  function InodeAt(d: Image, i: nat): (ino: Inode)
    requires i < INODE_NUM
    ensures WellFormed(ino)
  {
    InodeFrom(Words(d[IBlock(i)]), Slot(i))
  }

  /** `*ino_disk = *ino` on a copy of the block, which is then written back. */
  function Overlay(b: Block, o: nat, ino: Inode): Block
    requires WellFormed(ino) && o + INODE_WORDS <= BLOCK_SIZE / 4
  {
    b[..4 * o] + FromWords(InodeWords(ino)) + b[4 * o + INODE_BYTES..]
  }

  function PutInode(d: Image, i: nat, ino: Inode): Image
    requires i < INODE_NUM && WellFormed(ino)
  {
    d[IBlock(i) := Overlay(d[IBlock(i)], Slot(i), ino)]
  }

  lemma SameWord(b: Bytes, i: nat, c: Bytes, j: nat)
    requires 4 * i + 4 <= |b| && 4 * j + 4 <= |c| && b[4 * i..4 * i + 4] == c[4 * j..4 * j + 4]
    ensures WordAt(b, i) == WordAt(c, j)
  {
    var e := b[4 * i..4 * i + 4];
    assert b[4 * i] == e[0] && b[4 * i + 1] == e[1] && b[4 * i + 2] == e[2] && b[4 * i + 3] == e[3];
    assert c[4 * j] == e[0] && c[4 * j + 1] == e[1] && c[4 * j + 2] == e[2] && c[4 * j + 3] == e[3];
  }

  lemma SliceOfJoin(a: Bytes, m: Bytes, e: Bytes, i: nat, j: nat)
    requires i <= j
    ensures j <= |a| ==> (a + m + e)[i..j] == a[i..j]
    ensures |a| <= i && j <= |a + m| ==> (a + m + e)[i..j] == m[i - |a|..j - |a|]
    ensures |a + m| <= i && j <= |a + m + e| ==> (a + m + e)[i..j] == e[i - |a + m|..j - |a + m|]
  {
  }

  lemma SliceOfTail(b: Bytes, n: nat, i: nat, j: nat)
    requires n <= i <= j <= |b|
    ensures b[n..][i - n..j - n] == b[i..j]
  {
  }

  lemma SliceOfFront(b: Bytes, n: nat, i: nat, j: nat)
    requires i <= j <= n <= |b|
    ensures b[..n][i..j] == b[i..j]
  {
  }

  /** Words of a block whose middle was replaced. */
  lemma ReplacedWord(b: Bytes, m: Bytes, o: nat, n: nat, k: nat)
    requires |m| == 4 * n && 4 * o + 4 * n <= |b| && 4 * k + 4 <= |b|
    ensures
      var c := b[..4 * o] + m + b[4 * o + 4 * n..];
      |c| == |b| && WordAt(c, k) == if o <= k < o + n then WordAt(m, k - o) else WordAt(b, k)
  {
    var x, y := b[..4 * o], b[4 * o + 4 * n..];
    SliceOfJoin(x, m, y, 4 * k, 4 * k + 4);
    if o <= k < o + n {
      SameWord(x + m + y, k, m, k - o);
    } else {
      assert |x + m| == 4 * o + 4 * n;
      if k >= o + n {
        SliceOfTail(b, 4 * o + 4 * n, 4 * k, 4 * k + 4);
      } else {
        SliceOfFront(b, 4 * o, 4 * k, 4 * k + 4);
      }
      assert (x + m + y)[4 * k..4 * k + 4] == b[4 * k..4 * k + 4];
      SameWord(x + m + y, k, b, k);
    }
  }

  lemma OverlayWord(b: Block, o: nat, ino: Inode, k: nat)
    requires WellFormed(ino) && o + INODE_WORDS <= BLOCK_SIZE / 4 && k < BLOCK_SIZE / 4
    ensures Words(Overlay(b, o, ino))[k] ==
            if o <= k < o + INODE_WORDS then InodeWords(ino)[k - o] else Words(b)[k]
  {
    var c := Overlay(b, o, ino);
    assert Words(c)[k] == WordAt(c, k) && Words(b)[k] == WordAt(b, k);
    OverlaidWord(b, o, InodeWords(ino), k);
  }

  lemma OverlaidWord(b: Bytes, o: nat, ws: seq<nat32>, k: nat)
    requires |b| == BLOCK_SIZE && |ws| == INODE_WORDS && o + INODE_WORDS <= BLOCK_SIZE / 4 && k < BLOCK_SIZE / 4
    ensures
      var c := b[..4 * o] + FromWords(ws) + b[4 * o + INODE_BYTES..];
      |c| == |b| && WordAt(c, k) == if o <= k < o + INODE_WORDS then ws[k - o] else WordAt(b, k)
  {
    ReplacedWord(b, FromWords(ws), o, INODE_WORDS, k);
    if o <= k < o + INODE_WORDS {
      WordOf(ws, k - o);
    }
  }

  lemma WordOf(ws: seq<nat32>, i: nat)
    requires i < |ws|
    ensures WordAt(FromWords(ws), i) == ws[i]
  {
    WordsRoundTrip(ws);
    assert Words(FromWords(ws))[i] == ws[i];
  }

  lemma SameSlotSameInode(ws: seq<nat32>, o: nat, vs: seq<nat32>)
    requires o + INODE_WORDS <= |ws| && |vs| == INODE_WORDS
    requires forall k :: o <= k < o + INODE_WORDS ==> ws[k] == vs[k - o]
    ensures InodeFrom(ws, o) == InodeFrom(vs, 0)
  {
    assert ws[o + 5..o + INODE_WORDS] == vs[5..INODE_WORDS];
  }

  lemma InodeWordsRoundTrip(ino: Inode)
    requires WellFormed(ino)
    ensures InodeFrom(InodeWords(ino), 0) == ino
  {
    assert InodeWords(ino)[5..INODE_WORDS] == ino.blocks;
  }

  lemma SlotsApart(i: nat, j: nat)
    requires IBlock(i) == IBlock(j) && i != j
    ensures Slot(j) + INODE_WORDS <= Slot(i) || Slot(i) + INODE_WORDS <= Slot(j)
  {
    assert i / IPB == j / IPB;
    assert i % IPB != j % IPB;
  }

  lemma OwnWord(b: Block, ino: Inode, o: nat, k: nat)
    requires WellFormed(ino) && o + INODE_WORDS <= BLOCK_SIZE / 4 && k < INODE_WORDS
    ensures Words(Overlay(b, o, ino))[o + k] == InodeWords(ino)[k]
  {
    OverlayWord(b, o, ino, o + k);
  }

  lemma InodeFields(ino: Inode, k: nat)
    requires WellFormed(ino) && k < 33
    ensures
      var ws := InodeWords(ino);
      && |ws| == 38 && ws[0] == ino.typ && ws[1] == ino.size && ws[2] == ino.atime && ws[3] == ino.mtime && ws[4] == ino.ctime
      && ws[5 + k] == ino.blocks[k]
  {
  }

  /** Three inodes to a block, 38 words each. */
  lemma SlotIs(i: nat)
    ensures Slot(i) == 38 * (i % 3) && IBlock(i) == 11 + i / 3
  {
  }

  lemma OwnSlot(b: Block, ino: Inode, o: nat)
    requires WellFormed(ino) && o + INODE_WORDS <= BLOCK_SIZE / 4
    ensures InodeFrom(Words(Overlay(b, o, ino)), o) == ino
  {
    var ws := Words(Overlay(b, o, ino));
    forall k | o <= k < o + INODE_WORDS ensures ws[k] == InodeWords(ino)[k - o] {
      OverlayWord(b, o, ino, k);
    }
    SameSlotSameInode(ws, o, InodeWords(ino));
    InodeWordsRoundTrip(ino);
  }

  lemma SameWordsSameInode(ws: seq<nat32>, vs: seq<nat32>, o: nat)
    requires |ws| == |vs| && o + INODE_WORDS <= |ws|
    requires forall k :: o <= k < o + INODE_WORDS ==> ws[k] == vs[k]
    ensures InodeFrom(ws, o) == InodeFrom(vs, o)
  {
    assert ws[o + 5..o + INODE_WORDS] == vs[o + 5..o + INODE_WORDS];
  }

  lemma OtherWords(b: Block, ino: Inode, o: nat, p: nat)
    requires WellFormed(ino) && o + INODE_WORDS <= BLOCK_SIZE / 4 && p + INODE_WORDS <= BLOCK_SIZE / 4
    requires p + INODE_WORDS <= o || o + INODE_WORDS <= p
    ensures InodeFrom(Words(Overlay(b, o, ino)), p) == InodeFrom(Words(b), p)
  {
    var ws, vs := Words(Overlay(b, o, ino)), Words(b);
    forall k | p <= k < p + INODE_WORDS ensures ws[k] == vs[k] {
      OverlayWord(b, o, ino, k);
    }
    SameWordsSameInode(ws, vs, p);
  }

  lemma OtherSlot(b: Block, ino: Inode, i: nat, j: nat)
    requires WellFormed(ino) && IBlock(i) == IBlock(j) && i != j
    ensures InodeFrom(Words(Overlay(b, Slot(i), ino)), Slot(j)) == InodeFrom(Words(b), Slot(j))
  {
    SlotsApart(i, j);
    OtherWords(b, ino, Slot(i), Slot(j));
  }

  /** Writing inode i and reading inode j back. */
  lemma PutThenGet(d: Image, i: nat, ino: Inode, j: nat)
    requires i < INODE_NUM && j < INODE_NUM && WellFormed(ino)
    ensures InodeAt(PutInode(d, i, ino), j) == if j == i then ino else InodeAt(d, j)
  {
    if i == j {
      OwnSlot(d[IBlock(i)], ino, Slot(i));
    } else if IBlock(i) == IBlock(j) {
      OtherSlot(d[IBlock(i)], ino, i, j);
    }
  }

  predicate InUse(d: Image, i: nat) {
    i < INODE_NUM && InodeAt(d, i).typ != 0
  }

  /** Lowest free inode number at or above i, or 0. */
  function FirstFreeInode(d: Image, i: nat): (n: nat)
    requires i >= 1
    ensures n != 0 ==> i <= n < INODE_NUM && !InUse(d, n)
    ensures forall k :: i <= k < (if n != 0 then n else INODE_NUM) ==> InUse(d, k)
    decreases INODE_NUM - i
  {
    if i >= INODE_NUM then 0
    else if !InUse(d, i) then i
    else FirstFreeInode(d, i + 1)
  }
}
