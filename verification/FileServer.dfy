/** The file layer as the program runs it: a disk array overwritten in place, the block
    allocator's two nested loops, and the loops of the inode manager.  Each method is tied
    to the function on images of the same purpose. */
module FileServer {
  import opened Basics
  import opened DiskLayout
  import opened BlockBitmap
  import opened InodeTable
  import FileLayer
  import FileBlocks

  class Disk {
    const blocks: array<Block>

    ghost predicate Valid() {
      blocks.Length == BLOCK_NUM
    }

    ghost function Contents(): Image
      requires Valid()
      reads blocks
    {
      blocks[..]
    }

    constructor ()
      ensures Valid() && fresh(blocks) && Contents() == Blank()
    {
      blocks := new Block[BLOCK_NUM](_ => ZERO_BLOCK);
      new;
      assert blocks[..] == Blank();
    }

    /** Reading outside the disk leaves the caller's buffer as it was. */
    method ReadBlock(id: nat32, buf: Block) returns (r: Block)
      requires Valid()
      ensures r == if id < BLOCK_NUM then Contents()[id] else buf
    {
      if id >= BLOCK_NUM {
        return buf;
      }
      r := blocks[id];
    }

    method WriteBlock(id: nat32, buf: Block)
      requires Valid()
      modifies blocks
      ensures Contents() == if id < BLOCK_NUM then old(Contents())[id := buf] else old(Contents())
    {
      if id >= BLOCK_NUM {
        return;
      }
      blocks[id] := buf;
    }
  }

  /** The scan of alloc_block passed over every block below p. */
  ghost predicate NoneBefore(d: Image, p: nat) {
    p >= 1 && FirstFree(d, FIRST_DATA) == FirstFree(d, p)
  }

  /** Bit j of bitmap block i guards block (i - 2) * BPB + j. */
  lemma BlockUnderBitmap(i: nat, j: nat)
    requires 2 <= i < BBlock(BLOCK_NUM) && j < BPB
    ensures
      var p := (i - 2) * BPB + j;
      p < BLOCK_NUM && BBlock(p) == i && ByteIndex(p) == j / 8 % 256 && p % 8 == j % 8
  {
    var p := (i - 2) * BPB + j;
    assert p / BPB == i - 2 && p % BPB == j;
    assert p == 8 * (512 * (i - 2)) + j;
  }

  /** One iteration of the scan: either the block found is the allocated one, or the
      scan moves on. */
  lemma ScanStep(d: Image, i: nat, j: nat)
    requires 2 <= i < BBlock(BLOCK_NUM) && j < BPB && NoneBefore(d, (i - 2) * BPB + j)
    ensures
      var p, at, bit := (i - 2) * BPB + j, j / 8 % 256, j % 8;
      if TestBit(d[i][at], bit) then NoneBefore(d, p + 1)
      else p < WORD && Alloc(d) == (d[i := d[i][at := SetBit(d[i][at], bit)]], p)
  {
    BlockUnderBitmap(i, j);
  }

  lemma ScanEnds(d: Image)
    requires NoneBefore(d, BLOCK_NUM)
    ensures Alloc(d) == (d, 0)
  {
  }

  class BlockManager {
    const d: Disk

    ghost predicate Valid() {
      d.Valid()
    }

    ghost function Contents(): Image
      requires Valid()
      reads d.blocks
    {
      d.Contents()
    }

    constructor ()
      ensures Valid() && fresh(d) && fresh(d.blocks) && Contents() == Blank()
    {
      d := new Disk();
    }

    /** alloc_block: the first block from the data region on whose bit is clear. */
    method AllocBlock() returns (id: nat32)
      requires Valid()
      modifies d.blocks
      ensures (Contents(), id) == Alloc(old(Contents()))
    {
      ghost var was := Contents();
      var i: nat32 := BBlock(FIRST_DATA);
      var j: nat := FIRST_DATA % BPB;
      var limit: nat32 := BBlock(BLOCK_NUM);
      var bitmap := ZERO_BLOCK;
      while i < limit
        invariant 2 <= i <= limit && j <= BPB && Contents() == was
        invariant i == limit ==> j == 0
        invariant NoneBefore(was, (i - 2) * BPB + j)
      {
        bitmap := d.ReadBlock(i, bitmap);
        while j < BPB
          invariant j <= BPB && Contents() == was && bitmap == was[i]
          invariant NoneBefore(was, (i - 2) * BPB + j)
        {
          var at, bit := j / 8 % 256, j % 8;
          var byte := bitmap[at];
          ScanStep(was, i, j);
          if !TestBit(byte, bit) {
            bitmap := bitmap[at := SetBit(byte, bit)];
            d.WriteBlock(i, bitmap);
            return (i - 2) * BPB + j;
          }
          j := j + 1;
        }
        j := 0;
        i := i + 1;
      }
      ScanEnds(was);
      id := 0;
    }
  }

  /** The scan of alloc_inode found an inode at every number below n. */
  ghost predicate NoInodeBefore(d: Image, n: nat) {
    n >= 1 && FirstFreeInode(d, 1) == FirstFreeInode(d, n)
  }

  lemma InodeScanStep(d: Image, n: nat)
    requires n < INODE_NUM && NoInodeBefore(d, n)
    ensures if InodeAt(d, n).typ == 0 then FirstFreeInode(d, 1) == n else NoInodeBefore(d, n + 1)
  {
  }

  lemma InodeScanEnds(d: Image)
    requires NoInodeBefore(d, INODE_NUM)
    ensures FirstFreeInode(d, 1) == 0
  {
  }

  lemma AllocNext(d: Image, i: nat, d1: Image, ids: seq<nat32>)
    requires AllocMany(d, i) == (d1, ids)
    ensures AllocMany(d, i + 1) == (Alloc(d1).0, ids + [Alloc(d1).1])
  {
  }

  lemma StoreNext(table: seq<nat32>, at: nat, ids: seq<nat32>, id: nat32)
    requires at + |ids| < |table|
    ensures (table[..at] + ids + table[at + |ids|..])[at + |ids| := id] == table[..at] + (ids + [id]) + table[at + |ids| + 1..]
  {
  }

  class InodeManager {
    const bm: BlockManager

    ghost predicate Valid() {
      bm.Valid()
    }

    ghost function Contents(): Image
      requires Valid()
      reads bm.d.blocks
    {
      bm.Contents()
    }

    /** A freshly formatted file system has one inode, number 1, of directory type. */
    constructor (stack: Inode)
      requires WellFormed(stack)
      ensures Valid() && fresh(bm) && fresh(bm.d) && fresh(bm.d.blocks)
      ensures Contents() == FileLayer.Create(Blank(), FileLayer.T_DIR, stack).0
      ensures FileLayer.Create(Blank(), FileLayer.T_DIR, stack).1 == 1
      ensures InodeAt(Contents(), 1).typ == 1 && InodeAt(Contents(), 1).size == 0
    {
      bm := new BlockManager();
      new;
      var root := AllocInode(FileLayer.T_DIR, stack);
      BlankHasNoInodes(1);
    }

    method GetInode(i: nat32) returns (r: Option<Inode>)
      requires Valid()
      ensures r == if i < INODE_NUM && InodeAt(Contents(), i).typ != 0 then Some(InodeAt(Contents(), i)) else None
    {
      if i >= INODE_NUM {
        return None;
      }
      var buf := bm.d.ReadBlock(IBlock(i), ZERO_BLOCK);
      var ino := InodeFrom(Words(buf), Slot(i));
      r := if ino.typ == 0 then None else Some(ino);
    }

    method PutInode(i: nat32, ino: Inode)
      requires Valid() && i < INODE_NUM && WellFormed(ino)
      modifies bm.d.blocks
      ensures Contents() == InodeTable.PutInode(old(Contents()), i, ino)
    {
      var buf := bm.d.ReadBlock(IBlock(i), ZERO_BLOCK);
      bm.d.WriteBlock(IBlock(i), Overlay(buf, Slot(i), ino));
    }

    /** alloc_inode: the lowest number without an inode; `stack` is the uninitialised
        local whose other fields are stored too. */
    method AllocInode(typ: nat32, stack: Inode) returns (n: nat32)
      requires Valid() && WellFormed(stack)
      modifies bm.d.blocks
      ensures (Contents(), n as nat) == FileLayer.Create(old(Contents()), typ, stack)
      ensures n == 0 ==> Contents() == old(Contents())
      ensures n != 0 ==>
                && n < INODE_NUM && InodeAt(old(Contents()), n).typ == 0
                && InodeAt(Contents(), n) == stack.(typ := typ % 65536, size := 0)
    {
      ghost var was := Contents();
      n := 1;
      while n < INODE_NUM
        invariant 1 <= n <= INODE_NUM && Contents() == was && NoInodeBefore(was, n)
      {
        var ino := GetInode(n);
        InodeScanStep(was, n);
        if ino.None? {
          PutThenGet(was, n, stack.(typ := typ % 65536, size := 0), n);
          PutInode(n, stack.(typ := typ % 65536, size := 0));
          return;
        }
        n := n + 1;
      }
      InodeScanEnds(was);
      n := 0;
    }

    /** read_file: None when there is no such inode. */
    method ReadFile(i: nat32) returns (r: Option<(Bytes, nat)>)
      requires Valid()
      requires i < INODE_NUM && InodeAt(Contents(), i).typ != 0 ==> FileLayer.Readable(Contents(), InodeAt(Contents(), i))
      ensures r == if i < INODE_NUM then FileLayer.ReadFile(Contents(), i) else None
    {
      var found := GetInode(i);
      if found.None? {
        return None;
      }
      var ino := found.value;
      var n := FileLayer.BlockCount(ino.size);
      DataIdsParts(Contents(), ino);
      var limit := FileLayer.Min(n, NDIRECT);
      ghost var direct := ino.blocks[..limit];
      var buf: Bytes := ReadBlocks(ino.blocks, limit, []);
      assert [] + direct == direct;
      if n <= NDIRECT {
        ReadFileGives(Contents(), i, direct);
        return Some((buf, ino.size));
      }
      buf := ReadIndirect(ino, n, buf);
      ReadFileGives(Contents(), i, FileLayer.DataIds(Contents(), ino));
      return Some((buf, ino.size));
    }

    /** The blocks that the indirect block names, behind the direct ones in buf. */
    method ReadIndirect(ino: Inode, n: nat, buf: Bytes) returns (out: Bytes)
      requires Valid() && FileLayer.Readable(Contents(), ino) && n == FileLayer.BlockCount(ino.size) > NDIRECT
      requires (forall k :: 0 <= k < NDIRECT ==> ino.blocks[k] < BLOCK_NUM)
      requires buf == FileLayer.ReadMany(Contents(), ino.blocks[..NDIRECT])
      ensures out == FileLayer.ReadMany(Contents(), FileLayer.DataIds(Contents(), ino))
    {
      DataIdsParts(Contents(), ino);
      var table := bm.d.ReadBlock(ino.blocks[NDIRECT], ZERO_BLOCK);
      out := ReadBlocks(Words(table), n - NDIRECT, buf, ino.blocks[..NDIRECT]);
    }

    /** One reading loop of read_file: blocks ids[..limit], appended to buf. */
    method ReadBlocks(ids: seq<nat32>, limit: nat, buf: Bytes, ghost before: seq<nat32> := []) returns (out: Bytes)
      requires Valid() && limit <= |ids|
      requires forall k :: 0 <= k < |before| ==> before[k] < BLOCK_NUM
      requires forall k :: 0 <= k < limit ==> ids[k] < BLOCK_NUM
      requires buf == FileLayer.ReadMany(Contents(), before)
      ensures out == FileLayer.ReadMany(Contents(), before + ids[..limit])
    {
      out := buf;
      var i := 0;
      assert before + ids[..0] == before;
      while i < limit
        invariant i <= limit
        invariant out == FileLayer.ReadMany(Contents(), before + ids[..i])
      {
        var block := bm.d.ReadBlock(ids[i], ZERO_BLOCK);
        out := out + block;
        ghost var seen := before + ids[..i + 1];
        assert seen[..|seen| - 1] == before + ids[..i];
        i := i + 1;
      }
    }

    /** One allocating loop of write_file: `count` new blocks stored from position `at`. */
    method AllocInto(table: seq<nat32>, at: nat, count: nat) returns (t: seq<nat32>)
      requires Valid() && at + count <= |table|
      modifies bm.d.blocks
      ensures
        var (d', ids) := AllocMany(old(Contents()), count);
        Contents() == d' && t == table[..at] + ids + table[at + count..]
    {
      t := table;
      var i := 0;
      ghost var ids: seq<nat32> := [];
      assert t == table[..at] + ids + table[at + i..];
      while i < count
        invariant i <= count && |ids| == i && AllocMany(old(Contents()), i) == (Contents(), ids)
        invariant t == table[..at] + ids + table[at + i..]
      {
        AllocNext(old(Contents()), i, Contents(), ids);
        var id := bm.AllocBlock();
        StoreNext(table, at, ids, id);
        t := t[at + i := id];
        ids := ids + [id];
        i := i + 1;
      }
    }

    /** The allocation branch of write_file. */
    method Grow(ino: Inode, n: nat, stack: seq<nat32>) returns (r: Inode)
      requires Valid() && WellFormed(ino) && |stack| == NINDIRECT
      requires FileLayer.BlockCount(ino.size) <= NDIRECT && FileLayer.BlockCount(ino.size) < n <= MAXFILE
      modifies bm.d.blocks
      ensures (Contents(), r) == FileLayer.Grow(old(Contents()), ino, n, stack)
    {
      var blocks;
      if n <= NDIRECT {
        FileBlocks.GrowSmallIs(Contents(), ino, n, stack);
        blocks := AllocInto(ino.blocks, FileLayer.BlockCount(ino.size), n - FileLayer.BlockCount(ino.size));
      } else {
        blocks := GrowLarge(ino, n, stack);
      }
      r := ino.(blocks := blocks);
    }

    method GrowLarge(ino: Inode, n: nat, stack: seq<nat32>) returns (blocks: seq<nat32>)
      requires Valid() && WellFormed(ino) && |stack| == NINDIRECT
      requires FileLayer.BlockCount(ino.size) <= NDIRECT < n <= MAXFILE
      modifies bm.d.blocks
      ensures (Contents(), ino.(blocks := blocks)) == FileLayer.Grow(old(Contents()), ino, n, stack)
    {
      FileBlocks.GrowLargeIs(Contents(), ino, n, stack);
      var was := FileLayer.BlockCount(ino.size);
      blocks := AllocInto(ino.blocks, was, NDIRECT - was);
      blocks := GrowIndirect(blocks, n - NDIRECT, stack);
    }

    /** The indirect block and the blocks it names. */
    method GrowIndirect(blocks: seq<nat32>, count: nat, stack: seq<nat32>) returns (r: seq<nat32>)
      requires Valid() && |blocks| == NDIRECT + 1 && |stack| == NINDIRECT && count <= NINDIRECT
      modifies bm.d.blocks
      ensures (Contents(), r) == FileBlocks.Indirect(old(Contents()), blocks, count, stack)
    {
      var ind := bm.AllocBlock();
      ghost var d2 := Contents();
      var table := AllocInto(stack, 0, count);
      assert table == AllocMany(d2, count).1 + stack[count..];
      bm.d.WriteBlock(ind, FromWords(table));
      r := blocks[NDIRECT := ind];
    }

    /** One data loop of write_file: blocks ids[..limit] receive buf from `offset` on. */
    method WriteBlocks(ids: seq<nat32>, limit: nat, buf: Bytes, offset: nat)
      requires Valid() && limit <= |ids| && offset + limit * BLOCK_SIZE <= |buf|
      modifies bm.d.blocks
      ensures Contents() == FileLayer.WriteMany(old(Contents()), ids[..limit], buf[offset..])
    {
      var at := offset;
      var i := 0;
      while i < limit
        invariant i <= limit && at == offset + i * BLOCK_SIZE
        invariant Contents() == FileLayer.WriteMany(old(Contents()), ids[..i], buf[offset..])
      {
        WriteOneMore(old(Contents()), ids, i, buf[offset..]);
        BlockAt(buf, offset, i);
        bm.d.WriteBlock(ids[i], buf[at..at + BLOCK_SIZE]);
        at := at + BLOCK_SIZE;
        i := i + 1;
      }
    }

    /** The two data loops of write_file: direct blocks, then those of the indirect block. */
    method WriteData(ino: Inode, n: nat, buf: Bytes)
      requires Valid() && WellFormed(ino) && n <= MAXFILE && |buf| == n * BLOCK_SIZE
      modifies bm.d.blocks
      ensures Contents() == FileLayer.WriteData(old(Contents()), ino, n, buf)
    {
      var limit := FileLayer.Min(n, NDIRECT);
      WriteBlocks(ino.blocks, limit, buf, 0);
      assert buf[0..] == buf;
      if n <= NDIRECT {
        return;
      }
      var table := bm.d.ReadBlock(ino.blocks[NDIRECT], FromWords(seq(NINDIRECT, k => 0)));
      WordsRoundTrip(seq(NINDIRECT, k => 0));
      WriteBlocks(Words(table), n - limit, buf, NDIRECT * BLOCK_SIZE);
    }

    /** write_file, for the writes the code handles.  A write to no file and one that is
        too large leave the disk alone.  Without growth the block count is unchanged, so
        the freeing loop of the other branch does nothing. */
    method WriteFile(i: nat32, buf: Bytes, size: nat32, stack: seq<nat32>)
      requires Valid() && (i < INODE_NUM ==> FileLayer.Handled(Contents(), i, size))
      requires |buf| == FileLayer.BlockCount(size) * BLOCK_SIZE && |stack| == NINDIRECT
      modifies bm.d.blocks
      ensures Contents() ==
              if i < INODE_NUM then FileLayer.WriteFile(old(Contents()), i, buf, size, stack) else old(Contents())
    {
      var found := GetInode(i);
      if found.None? {
        return;
      }
      var ino := found.value;
      var was, n := FileLayer.BlockCount(ino.size), FileLayer.BlockCount(size);
      if n > MAXFILE {
        return;
      }
      if was < n {
        ino := Grow(ino, n, stack);
      }
      ino := ino.(size := size);
      PutInode(i, ino);
      WriteData(ino, n, buf);
    }
  }

  lemma WriteOneMore(d: Image, ids: seq<nat32>, i: nat, buf: Bytes)
    requires i < |ids| && (i + 1) * BLOCK_SIZE <= |buf|
    ensures
      var d1 := FileLayer.WriteMany(d, ids[..i], buf);
      FileLayer.WriteMany(d, ids[..i + 1], buf)
      == if ids[i] < BLOCK_NUM then d1[ids[i] := FileLayer.BlockOf(buf, i)] else d1
  {
    assert ids[..i + 1][..i] == ids[..i];
  }

  lemma BlockAt(buf: Bytes, offset: nat, i: nat)
    requires offset + (i + 1) * BLOCK_SIZE <= |buf|
    ensures buf[offset + i * BLOCK_SIZE..offset + i * BLOCK_SIZE + BLOCK_SIZE] == FileLayer.BlockOf(buf[offset..], i)
  {
    assert buf[offset..][i * BLOCK_SIZE..(i + 1) * BLOCK_SIZE] == buf[offset + i * BLOCK_SIZE..offset + (i + 1) * BLOCK_SIZE];
  }

  lemma ReadFileGives(d: Image, i: nat, ids: seq<nat32>)
    requires i < INODE_NUM && InodeAt(d, i).typ != 0 && FileLayer.Readable(d, InodeAt(d, i))
    requires ids == FileLayer.DataIds(d, InodeAt(d, i))
    ensures FileLayer.ReadFile(d, i) == Some((FileLayer.ReadMany(d, ids), InodeAt(d, i).size))
  {
  }

  /** The two loops of read_file visit the file's blocks in order. */
  lemma DataIdsParts(d: Image, ino: Inode)
    requires FileLayer.Readable(d, ino)
    ensures
      var n := FileLayer.BlockCount(ino.size);
      var limit := FileLayer.Min(n, NDIRECT);
      && (forall k :: 0 <= k < limit ==> ino.blocks[k] < BLOCK_NUM)
      && (n <= NDIRECT ==> FileLayer.DataIds(d, ino) == ino.blocks[..limit])
      && (n > NDIRECT ==>
           && ino.blocks[NDIRECT] < BLOCK_NUM
           && (forall k :: 0 <= k < n - limit ==> Words(d[ino.blocks[NDIRECT]])[k] < BLOCK_NUM)
           && FileLayer.DataIds(d, ino) == ino.blocks[..limit] + Words(d[ino.blocks[NDIRECT]])[..n - limit])
  {
    var ids := FileLayer.DataIds(d, ino);
    var n := FileLayer.BlockCount(ino.size);
    var limit := FileLayer.Min(n, NDIRECT);
    forall k | 0 <= k < limit ensures ino.blocks[k] < BLOCK_NUM {
      assert ids[k] == ino.blocks[k];
    }
    if n > NDIRECT {
      var table := Words(d[ino.blocks[NDIRECT]]);
      forall k | 0 <= k < n - limit ensures table[k] < BLOCK_NUM {
        assert ids[limit + k] == table[k];
      }
    }
  }

  lemma BlankHasNoInodes(i: nat)
    requires i < INODE_NUM
    ensures InodeAt(Blank(), i).typ == 0
  {
    var b: Block := Blank()[IBlock(i)];
    assert b == ZERO_BLOCK;
    assert Words(b)[Slot(i)] == 0;
  }

  /** What was created is found: with the type that was asked for, and empty.  A type that is
      0 in sixteen bits makes an inode that still counts as free. */
  method AllocThenGet(im: InodeManager, typ: nat32, stack: Inode) returns (n: nat32, found: Option<Inode>)
    requires im.Valid() && WellFormed(stack)
    modifies im.bm.d.blocks
    ensures im.Valid()
    ensures n != 0 && typ % 65536 != 0 ==> found.Some? && found.value.typ == typ % 65536 && found.value.size == 0
    ensures n != 0 && typ % 65536 == 0 ==> found.None?
  {
    n := im.AllocInode(typ, stack);
    found := im.GetInode(n);
  }
}
