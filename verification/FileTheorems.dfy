/** One creation or handled write: it keeps the ownership invariant, the file holds exactly
    what was written, and every other file is untouched. */
module FileTheorems {
  import opened Basics
  import opened DiskLayout
  import opened BlockBitmap
  import opened InodeTable
  import opened FileLayer
  import opened FileBlocks

  // ---- write_file, up to the inode ----

  /** The inode after the allocation branch, with the new size. */
  function NewInode(d: Image, i: nat, size: nat32, garbage: seq<nat32>): (r: (Image, Inode))
    requires i < INODE_NUM && Handled(d, i, size) && InodeAt(d, i).typ != 0 && BlockCount(size) <= MAXFILE
    requires |garbage| == NINDIRECT
    ensures WellFormed(r.1)
  {
    var ino := InodeAt(d, i);
    var (d1, ino1) := if BlockCount(ino.size) < BlockCount(size) then Grow(d, ino, BlockCount(size), garbage) else (d, ino);
    (d1, ino1.(size := size))
  }

  /** The free space a write needs. */
  ghost predicate EnoughSpace(d: Image, i: nat, size: nat)
    requires i < INODE_NUM && Handled(d, i, size)
  {
    InodeAt(d, i).typ != 0 && BlockCount(size) <= MAXFILE ==>
      Need(BlockCount(InodeAt(d, i).size), BlockCount(size)) <= |FreeBits(d)|
  }

  /** The file now owns what it owned plus blocks that were free. */
  ghost predicate Extended(d: Image, ino: Inode, d1: Image, ino1: Inode) {
    && WellFormed(ino) && BlockCount(ino.size) <= MAXFILE
    && Sound(d1, ino1) && Touches(d, d1, Refs(d1, ino1))
    && forall r :: r in Refs(d1, ino1) ==> r in Refs(d, ino) || (r < BLOCK_NUM && !Taken(d, r))
  }

  /** Old blocks followed by fresh ones make a sound list of references. */
  lemma OldAndFresh(d: Image, d1: Image, olds: seq<nat32>, ids: seq<nat32>)
    requires NoDup(olds) && (forall r :: r in olds ==> FIRST_DATA <= r < BLOCK_NUM && Taken(d, r))
    requires FreshBlocks(d, d1, ids) && (forall p :: 0 <= p < BLOCK_NUM && Taken(d, p) ==> Taken(d1, p))
    ensures NoDup(olds + ids)
    ensures forall r :: r in olds + ids ==> FIRST_DATA <= r < BLOCK_NUM && Taken(d1, r) && (r in olds || !Taken(d, r))
  {
    var s := olds + ids;
    forall a, b | 0 <= a < b < |s| ensures s[a] != s[b] {
      if a < |olds| <= b {
        assert s[a] in olds && s[b] == ids[b - |olds|];
      }
    }
    forall r | r in s ensures FIRST_DATA <= r < BLOCK_NUM && Taken(d1, r) && (r in olds || !Taken(d, r)) {
      if r !in olds {
        assert r in ids;
        var k :| 0 <= k < |ids| && ids[k] == r;
      }
    }
  }

  lemma TouchesMore(d: Image, d1: Image, rs: seq<nat32>, rs': seq<nat32>)
    requires Touches(d, d1, rs) && forall r :: r in rs ==> r in rs'
    ensures Touches(d, d1, rs')
  {
  }

  lemma GrownExtends(d: Image, ino: Inode, size: nat32, garbage: seq<nat32>)
    requires Sound(d, ino) && BlockCount(ino.size) <= NDIRECT && BlockCount(ino.size) < BlockCount(size) <= MAXFILE
    requires |garbage| == NINDIRECT && Need(BlockCount(ino.size), BlockCount(size)) <= |FreeBits(d)|
    ensures
      var (d1, ino1) := Grow(d, ino, BlockCount(size), garbage);
      Extended(d, ino, d1, ino1.(size := size))
  {
    var was, n := BlockCount(ino.size), BlockCount(size);
    var d1, ino1 := Grow(d, ino, n, garbage).0, Grow(d, ino, n, garbage).1.(size := size);
    var olds, ids := ino.blocks[..was], Grown(d, ino, n);
    assert Refs(d, ino) == olds;
    GrownOwns(d, ino, size, garbage);
    OldAndFresh(d, d1, olds, ids);
    TouchesMore(d, d1, ids, olds + ids);
  }

  /** The grown file refers to its old blocks and then to the allocated ones. */
  lemma GrownOwns(d: Image, ino: Inode, size: nat32, garbage: seq<nat32>)
    requires WellFormed(ino) && BlockCount(ino.size) <= NDIRECT && BlockCount(ino.size) < BlockCount(size) <= MAXFILE
    requires |garbage| == NINDIRECT && Need(BlockCount(ino.size), BlockCount(size)) <= |FreeBits(d)|
    ensures
      var (d1, ino1) := Grow(d, ino, BlockCount(size), garbage);
      var ids := Grown(d, ino, BlockCount(size));
      && Refs(d1, ino1.(size := size)) == ino.blocks[..BlockCount(ino.size)] + ids
      && FreshBlocks(d, d1, ids) && Touches(d, d1, ids)
  {
    var n := BlockCount(size);
    var (d1, ino1) := Grow(d, ino, n, garbage);
    if n <= NDIRECT {
      GrownSmall(d, ino, n, garbage);
      assert Refs(d1, ino1.(size := size)) == ino1.blocks[..n];
    } else {
      GrownLarge(d, ino, n, garbage);
      GrownRefs(d1, ino1.(size := size), n);
    }
  }

  lemma NewInodeExtends(d: Image, i: nat, size: nat32, garbage: seq<nat32>)
    requires i < INODE_NUM && Handled(d, i, size) && InodeAt(d, i).typ != 0 && BlockCount(size) <= MAXFILE
    requires |garbage| == NINDIRECT && EnoughSpace(d, i, size) && Sound(d, InodeAt(d, i))
    ensures
      var (d1, ino1) := NewInode(d, i, size, garbage);
      Extended(d, InodeAt(d, i), d1, ino1)
  {
    var ino := InodeAt(d, i);
    if BlockCount(ino.size) < BlockCount(size) {
      GrownExtends(d, ino, size, garbage);
    } else {
      assert Refs(d, ino.(size := size)) == Refs(d, ino);
    }
  }

  lemma GrownRefs(d: Image, ino: Inode, n: nat)
    requires WellFormed(ino) && NDIRECT < n == BlockCount(ino.size) <= MAXFILE
    ensures Refs(d, ino) == ino.blocks[..NDIRECT] + IndirectIds(d, ino)[..n - NDIRECT] + [ino.blocks[NDIRECT]]
  {
  }

  // ---- put_inode and the data ----

  /** Only the bitmap, inode i's block and the blocks of rs differ. */
  ghost predicate Confined(d: Image, d': Image, i: nat, rs: seq<nat32>)
    requires i < INODE_NUM
  {
    && (forall b: nat32 :: b < BLOCK_NUM && !(2 <= b < BBlock(BLOCK_NUM)) && b != IBlock(i) && b !in rs ==> d'[b] == d[b])
    && (forall p :: 0 <= p < BLOCK_NUM && Taken(d, p) ==> Taken(d', p))
    && (forall j :: 0 <= j <= LAST_INODE && j != i ==> InodeAt(d', j) == InodeAt(d, j))
  }

  lemma PutKeepsBits(d: Image, i: nat, ino: Inode)
    requires i < INODE_NUM && WellFormed(ino)
    ensures forall p :: 0 <= p < BLOCK_NUM ==> Taken(PutInode(d, i, ino), p) == Taken(d, p)
  {
    InodeBlocksEndBeforeData(i);
  }

  lemma TouchesKeepsInode(d: Image, d1: Image, rs: seq<nat32>, j: nat)
    requires Touches(d, d1, rs) && j <= LAST_INODE && forall r :: r in rs ==> r >= FIRST_DATA
    ensures InodeAt(d1, j) == InodeAt(d, j)
  {
    InodeBlocksEndBeforeData(j);
    assert d1[IBlock(j) as nat32] == d[IBlock(j) as nat32];
  }

  lemma PutChangesOneInode(d: Image, d1: Image, i: nat, ino1: Inode, rs: seq<nat32>, j: nat)
    requires 1 <= i <= LAST_INODE && WellFormed(ino1) && Touches(d, d1, rs) && forall r :: r in rs ==> r >= FIRST_DATA
    requires j <= LAST_INODE && j != i
    ensures InodeAt(PutInode(d1, i, ino1), j) == InodeAt(d, j)
  {
    PutThenGet(d1, i, ino1, j);
    TouchesKeepsInode(d, d1, rs, j);
  }

  lemma PutConfines(d: Image, d1: Image, i: nat, ino1: Inode, rs: seq<nat32>)
    requires 1 <= i <= LAST_INODE && WellFormed(ino1) && Touches(d, d1, rs) && forall r :: r in rs ==> r >= FIRST_DATA
    ensures Confined(d, PutInode(d1, i, ino1), i, rs)
  {
    PutKeepsBits(d1, i, ino1);
    forall j | 0 <= j <= LAST_INODE && j != i ensures InodeAt(PutInode(d1, i, ino1), j) == InodeAt(d, j) {
      PutChangesOneInode(d, d1, i, ino1, rs, j);
    }
  }

  lemma PutKeepsRefs(d1: Image, i: nat, ino1: Inode)
    requires 1 <= i <= LAST_INODE && Sound(d1, ino1)
    ensures
      var d2 := PutInode(d1, i, ino1);
      InodeAt(d2, i) == ino1 && Sound(d2, ino1) && Refs(d2, ino1) == Refs(d1, ino1)
  {
    var d2 := PutInode(d1, i, ino1);
    InodeBlocksEndBeforeData(i);
    PutKeepsBits(d1, i, ino1);
    PutThenGet(d1, i, ino1, i);
    forall r | r in Refs(d1, ino1) ensures d2[r] == d1[r] && Taken(d2, r) {
      assert r >= FIRST_DATA;
    }
    SameBlocksSameFile(d1, d2, ino1);
  }

  lemma PutConfined(d: Image, d1: Image, i: nat, ino1: Inode)
    requires 1 <= i <= LAST_INODE && Sound(d1, ino1) && Touches(d, d1, Refs(d1, ino1))
    ensures
      var d2 := PutInode(d1, i, ino1);
      Confined(d, d2, i, Refs(d1, ino1)) && InodeAt(d2, i) == ino1 && Sound(d2, ino1) && Refs(d2, ino1) == Refs(d1, ino1)
  {
    PutConfines(d, d1, i, ino1, Refs(d1, ino1));
    PutKeepsRefs(d1, i, ino1);
  }

  lemma DataIdsAreRefs(d: Image, ino: Inode)
    requires Sound(d, ino)
    ensures NoDup(DataIds(d, ino))
    ensures forall k :: 0 <= k < |DataIds(d, ino)| ==> FIRST_DATA <= DataIds(d, ino)[k] < BLOCK_NUM
    ensures forall r :: r in DataIds(d, ino) ==> r in Refs(d, ino)
    ensures BlockCount(ino.size) > NDIRECT ==> FIRST_DATA <= ino.blocks[NDIRECT] < BLOCK_NUM && ino.blocks[NDIRECT] !in DataIds(d, ino)
  {
    var rs, ids := Refs(d, ino), DataIds(d, ino);
    PrefixFacts(ids, rs);
    if BlockCount(ino.size) > NDIRECT {
      assert rs == ids + [ino.blocks[NDIRECT]];
      InitOfNoDup(ids, ino.blocks[NDIRECT]);
      assert rs[|rs| - 1] in rs;
    }
  }

  lemma PrefixFacts(ids: seq<nat32>, rs: seq<nat32>)
    requires ids <= rs && NoDup(rs) && forall r :: r in rs ==> FIRST_DATA <= r < BLOCK_NUM
    ensures NoDup(ids) && (forall r :: r in ids ==> r in rs)
    ensures forall k :: 0 <= k < |ids| ==> FIRST_DATA <= ids[k] < BLOCK_NUM
  {
    assert forall k :: 0 <= k < |ids| ==> ids[k] == rs[k];
    forall k | 0 <= k < |ids| ensures FIRST_DATA <= ids[k] < BLOCK_NUM {
      assert rs[k] in rs;
    }
  }

  lemma InitOfNoDup(ids: seq<nat32>, x: nat32)
    requires NoDup(ids + [x])
    ensures NoDup(ids) && x !in ids
  {
    var rs := ids + [x];
    forall a, b | 0 <= a < b < |ids| ensures ids[a] != ids[b] {
      assert rs[a] != rs[b];
    }
    forall a | 0 <= a < |ids| ensures ids[a] != x {
      assert rs[a] != rs[|ids|];
    }
  }

  /** Writing a sound file's data blocks: they read back as written, and the file's
      references, its inode and all allocation bits stay. */
  lemma DataWritten(d: Image, i: nat, ino: Inode, buf: Bytes)
    requires i <= LAST_INODE && InodeAt(d, i) == ino && Sound(d, ino) && |buf| == BlockCount(ino.size) * BLOCK_SIZE
    ensures
      var d' := WriteMany(d, DataIds(d, ino), buf);
      && Confined(d, d', i, Refs(d, ino)) && InodeAt(d', i) == ino
      && Sound(d', ino) && Refs(d', ino) == Refs(d, ino) && DataIds(d', ino) == DataIds(d, ino)
      && Readable(d', ino) && ReadMany(d', DataIds(d', ino)) == buf
  {
    var ids := DataIds(d, ino);
    var d' := WriteMany(d, ids, buf);
    DataIdsAreRefs(d, ino);
    forall b: nat32 | b < BLOCK_NUM && b !in ids ensures d'[b] == d[b] {
      WriteManyFrame(d, ids, buf, b);
    }
    DataKeepsLowBlocks(d, d', ids);
    if BlockCount(ino.size) > NDIRECT {
      assert d'[ino.blocks[NDIRECT]] == d[ino.blocks[NDIRECT]];
    }
    assert DataIds(d', ino) == ids;
    forall k | 0 <= k < |ids| ensures d'[ids[k]] == BlockOf(buf, k) {
      WriteManyAt(d, ids, buf, k);
    }
    ReadManyIs(d', ids, buf);
    assert buf[..|ids| * BLOCK_SIZE] == buf;
  }

  lemma DataKeepsLowBlocks(d: Image, d': Image, ids: seq<nat32>)
    requires forall b: nat32 :: b < BLOCK_NUM && b !in ids ==> d'[b] == d[b]
    requires forall k :: 0 <= k < |ids| ==> FIRST_DATA <= ids[k]
    ensures forall b: nat32 :: b < FIRST_DATA ==> d'[b] == d[b]
    ensures forall p :: 0 <= p < BLOCK_NUM ==> Taken(d', p) == Taken(d, p)
    ensures forall j :: 0 <= j <= LAST_INODE ==> InodeAt(d', j) == InodeAt(d, j)
  {
    forall p | 0 <= p < BLOCK_NUM ensures Taken(d', p) == Taken(d, p) {
      assert d'[BBlock(p) as nat32] == d[BBlock(p) as nat32];
    }
    forall j | 0 <= j <= LAST_INODE ensures InodeAt(d', j) == InodeAt(d, j) {
      InodeBlocksEndBeforeData(j);
      assert d'[IBlock(j) as nat32] == d[IBlock(j) as nat32];
    }
  }

  // ---- write_file as a whole ----

  /** The two data loops of write_file write the file's blocks in order. */
  lemma DataLoops(d: Image, ino: Inode, buf: Bytes)
    requires Sound(d, ino) && |buf| == BlockCount(ino.size) * BLOCK_SIZE
    ensures WriteData(d, ino, BlockCount(ino.size), buf) == WriteMany(d, DataIds(d, ino), buf)
  {
    var n := BlockCount(ino.size);
    if n > NDIRECT {
      var direct := ino.blocks[..NDIRECT];
      DataIdsAreRefs(d, ino);
      assert ino.blocks[NDIRECT] !in direct by {
        assert direct == DataIds(d, ino)[..NDIRECT];
      }
      WriteManyFrame(d, direct, buf, ino.blocks[NDIRECT]);
      WriteManyAppend(d, direct, IndirectIds(d, ino)[..n - NDIRECT], buf);
    }
  }

  lemma WriteFileSteps(d: Image, i: nat, buf: Bytes, size: nat32, garbage: seq<nat32>)
    requires 1 <= i <= LAST_INODE && Handled(d, i, size) && InodeAt(d, i).typ != 0 && BlockCount(size) <= MAXFILE
    requires |buf| == BlockCount(size) * BLOCK_SIZE && |garbage| == NINDIRECT
    requires
      var (d1, ino1) := NewInode(d, i, size, garbage);
      Sound(PutInode(d1, i, ino1), ino1)
    ensures
      var (d1, ino1) := NewInode(d, i, size, garbage);
      var d2 := PutInode(d1, i, ino1);
      WriteFile(d, i, buf, size, garbage) == WriteMany(d2, DataIds(d2, ino1), buf)
  {
    var (d1, ino1) := NewInode(d, i, size, garbage);
    DataLoops(PutInode(d1, i, ino1), ino1, buf);
    WriteFileIs(d, i, buf, size, garbage);
  }

  lemma WriteFileIs(d: Image, i: nat, buf: Bytes, size: nat32, garbage: seq<nat32>)
    requires i < INODE_NUM && Handled(d, i, size) && InodeAt(d, i).typ != 0 && BlockCount(size) <= MAXFILE
    requires |buf| == BlockCount(size) * BLOCK_SIZE && |garbage| == NINDIRECT
    ensures
      var (d1, ino1) := NewInode(d, i, size, garbage);
      WriteFile(d, i, buf, size, garbage) == WriteData(PutInode(d1, i, ino1), ino1, BlockCount(size), buf)
  {
  }

  lemma ConfinedTransitive(d: Image, d1: Image, d2: Image, i: nat, rs: seq<nat32>)
    requires i < INODE_NUM && Confined(d, d1, i, rs) && Confined(d1, d2, i, rs)
    ensures Confined(d, d2, i, rs)
  {
  }

  /** What a handled write does: file i owns extended references and holds buf, and
      nothing else but the bitmap changed. */
  lemma WriteEffect(d: Image, i: nat, buf: Bytes, size: nat32, garbage: seq<nat32>) returns (rs: seq<nat32>)
    requires Live(d, i) && Sound(d, InodeAt(d, i)) && Handled(d, i, size) && BlockCount(size) <= MAXFILE
    requires |buf| == BlockCount(size) * BLOCK_SIZE && |garbage| == NINDIRECT && EnoughSpace(d, i, size)
    ensures
      var d' := WriteFile(d, i, buf, size, garbage);
      var ino' := InodeAt(d', i);
      && Confined(d, d', i, rs) && Sound(d', ino') && Refs(d', ino') == rs
      && ino' == InodeAt(d, i).(size := size, blocks := ino'.blocks)
      && Readable(d', ino') && ReadMany(d', DataIds(d', ino')) == buf
    ensures forall r :: r in rs ==> r in Refs(d, InodeAt(d, i)) || (r < BLOCK_NUM && !Taken(d, r))
  {
    var (d1, ino1) := NewInode(d, i, size, garbage);
    NewInodeExtends(d, i, size, garbage);
    rs := Refs(d1, ino1);
    PutConfined(d, d1, i, ino1);
    var d2 := PutInode(d1, i, ino1);
    WriteFileSteps(d, i, buf, size, garbage);
    DataWritten(d2, i, ino1, buf);
    ConfinedTransitive(d, d2, WriteFile(d, i, buf, size, garbage), i, rs);
  }

  /** File j reads as before, with the same inode and the same blocks. */
  ghost predicate SameFile(d: Image, d': Image, j: nat)
    requires j < INODE_NUM
  {
    && InodeAt(d', j) == InodeAt(d, j) && FileOf(d', j) == FileOf(d, j)
    && (Live(d, j) ==> Sound(d', InodeAt(d', j)) && Owned(d', j) == Owned(d, j))
  }

  lemma SameInodeSameFile(d: Image, d': Image, j: nat)
    requires 1 <= j <= LAST_INODE && InodeAt(d', j) == InodeAt(d, j)
    requires Live(d, j) ==> Sound(d, InodeAt(d, j))
    requires Live(d, j) ==> forall r :: r in Owned(d, j) ==> d'[r] == d[r] && Taken(d', r)
    ensures SameFile(d, d', j)
  {
    if Live(d, j) {
      SameBlocksSameFile(d, d', InodeAt(d, j));
    }
  }

  /** A file whose references avoid rs is untouched by a change confined to rs. */
  lemma OtherFileUntouched(d: Image, d': Image, i: nat, rs: seq<nat32>, j: nat)
    requires 1 <= i <= LAST_INODE && 1 <= j <= LAST_INODE && j != i && Confined(d, d', i, rs)
    requires Live(d, j) ==> Sound(d, InodeAt(d, j))
    requires Live(d, j) ==> forall r :: r in rs ==> r !in Owned(d, j)
    ensures SameFile(d, d', j)
  {
    InodeBlocksEndBeforeData(i);
    if Live(d, j) {
      forall r | r in Owned(d, j) ensures d'[r] == d[r] && Taken(d', r) {
        assert r !in rs;
      }
    }
    SameInodeSameFile(d, d', j);
  }

  /** Blocks that belonged to file i, or to no file, belong to no other file. */
  lemma NewRefsAvoidOthers(d: Image, i: nat, rs: seq<nat32>, j: nat)
    requires FsInv(d) && Live(d, i) && Live(d, j) && j != i
    requires forall r :: r in rs ==> r in Owned(d, i) || (r < BLOCK_NUM && !Taken(d, r))
    ensures Sound(d, InodeAt(d, j))
    ensures forall r :: r in rs ==> r !in Owned(d, j)
  {
    assert Apart(d, i, j) && Sound(d, InodeAt(d, j));
  }

  /** No block file i owns in d' belonged to file j in d. */
  ghost predicate Clear(d: Image, d': Image, i: nat, j: nat)
    requires i < INODE_NUM && j < INODE_NUM
  {
    forall r :: r in Owned(d', i) ==> r !in Owned(d, j)
  }

  /** All files but i are the same, and i owns no block of theirs. */
  lemma OneFileChanged(d: Image, d': Image, i: nat)
    requires FsInv(d) && 1 <= i <= LAST_INODE && InodeAt(d', i).typ != 0 && Sound(d', InodeAt(d', i))
    requires forall j :: 1 <= j <= LAST_INODE && j != i ==> SameFile(d, d', j)
    requires forall j :: Live(d, j) && j != i ==> Clear(d, d', i, j)
    ensures FsInv(d')
    ensures forall j :: 1 <= j <= LAST_INODE && j != i ==> FileOf(d', j) == FileOf(d, j)
  {
    forall j | 1 <= j <= LAST_INODE && j != i ensures FileOf(d', j) == FileOf(d, j) {
      assert SameFile(d, d', j);
    }
    forall j | Live(d', j) ensures Sound(d', InodeAt(d', j)) {
      if j != i {
        assert SameFile(d, d', j);
      }
    }
    forall j, k | Live(d', j) && Live(d', k) && j != k ensures Apart(d', j, k) {
      if j != i {
        assert SameFile(d, d', j) && Live(d, j);
      }
      if k != i {
        assert SameFile(d, d', k) && Live(d, k);
      }
      if j != i && k != i {
        assert Apart(d, j, k);
      } else if j == i {
        assert Clear(d, d', i, k);
      } else {
        assert Clear(d, d', i, j);
      }
    }
  }

  lemma ConfinedOther(d: Image, d': Image, i: nat, rs: seq<nat32>, j: nat)
    requires FsInv(d) && Live(d, i) && Confined(d, d', i, rs) && Owned(d', i) == rs
    requires forall r :: r in rs ==> r in Owned(d, i) || (r < BLOCK_NUM && !Taken(d, r))
    requires 1 <= j <= LAST_INODE && j != i
    ensures SameFile(d, d', j) && (Live(d, j) ==> Clear(d, d', i, j))
  {
    if Live(d, j) {
      NewRefsAvoidOthers(d, i, rs, j);
    }
    OtherFileUntouched(d, d', i, rs, j);
  }

  lemma ConfinedInv(d: Image, d': Image, i: nat, rs: seq<nat32>)
    requires FsInv(d) && Live(d, i) && Confined(d, d', i, rs)
    requires Sound(d', InodeAt(d', i)) && Owned(d', i) == rs && InodeAt(d', i).typ != 0
    requires forall r :: r in rs ==> r in Owned(d, i) || (r < BLOCK_NUM && !Taken(d, r))
    ensures FsInv(d')
    ensures forall j :: 1 <= j <= LAST_INODE && j != i ==> FileOf(d', j) == FileOf(d, j)
  {
    forall j | 1 <= j <= LAST_INODE && j != i ensures SameFile(d, d', j) && (Live(d, j) ==> Clear(d, d', i, j)) {
      ConfinedOther(d, d', i, rs, j);
    }
    OneFileChanged(d, d', i);
  }

  /** A handled write with enough free space keeps the invariant, makes file i hold
      exactly the first `size` bytes of buf, and leaves every other file as it was. */
  lemma WriteThenRead(d: Image, i: nat, buf: Bytes, size: nat32, garbage: seq<nat32>)
    requires FsInv(d) && Live(d, i) && Handled(d, i, size) && BlockCount(size) <= MAXFILE
    requires |buf| == BlockCount(size) * BLOCK_SIZE && |garbage| == NINDIRECT && EnoughSpace(d, i, size)
    ensures
      var d' := WriteFile(d, i, buf, size, garbage);
      && FsInv(d') && FileOf(d', i) == Some(File(InodeAt(d, i).typ, buf[..size]))
      && (forall j :: 1 <= j <= LAST_INODE && j != i ==> FileOf(d', j) == FileOf(d, j))
  {
    var rs := WriteEffect(d, i, buf, size, garbage);
    ConfinedInv(d, WriteFile(d, i, buf, size, garbage), i, rs);
  }

  // ---- alloc_inode ----

  lemma EmptyFile(d: Image, ino: Inode)
    requires WellFormed(ino) && ino.size == 0
    ensures Sound(d, ino) && Refs(d, ino) == [] && Text(d, ino) == []
  {
    assert DataIds(d, ino) == [];
  }

  /** Storing an empty inode: the file is there, owns nothing and holds nothing. */
  lemma PutEmpty(d: Image, n: nat, ino: Inode)
    requires 1 <= n <= LAST_INODE && WellFormed(ino) && ino.typ != 0 && ino.size == 0
    ensures
      var d' := PutInode(d, n, ino);
      InodeAt(d', n) == ino && Owned(d', n) == [] && Sound(d', ino) && FileOf(d', n) == Some(File(ino.typ, []))
  {
    PutThenGet(d, n, ino, n);
    EmptyFile(PutInode(d, n, ino), ino);
  }

  lemma OwnedInData(d: Image, j: nat)
    requires 1 <= j <= LAST_INODE && Sound(d, InodeAt(d, j))
    ensures forall r :: r in Owned(d, j) ==> FIRST_DATA <= r < BLOCK_NUM && Taken(d, r)
  {
  }

  lemma PutKeepsOther(d: Image, n: nat, ino: Inode, j: nat)
    requires 1 <= n <= LAST_INODE && WellFormed(ino) && 1 <= j <= LAST_INODE && j != n
    requires Live(d, j) ==> Sound(d, InodeAt(d, j))
    ensures SameFile(d, PutInode(d, n, ino), j)
  {
    InodeBlocksEndBeforeData(n);
    PutKeepsBits(d, n, ino);
    PutThenGet(d, n, ino, j);
    if Live(d, j) {
      OwnedInData(d, j);
    }
    SameInodeSameFile(d, PutInode(d, n, ino), j);
  }

  lemma PutEmptyFrame(d: Image, n: nat, ino: Inode)
    requires FsInv(d) && 1 <= n <= LAST_INODE && WellFormed(ino) && ino.typ != 0 && ino.size == 0
    ensures
      var d' := PutInode(d, n, ino);
      FsInv(d') && forall j :: 1 <= j <= LAST_INODE && j != n ==> FileOf(d', j) == FileOf(d, j)
  {
    var d' := PutInode(d, n, ino);
    PutEmpty(d, n, ino);
    forall j | 1 <= j <= LAST_INODE && j != n ensures SameFile(d, d', j) && Clear(d, d', n, j) {
      PutKeepsOther(d, n, ino, j);
    }
    OneFileChanged(d, d', n);
  }

  lemma FirstFreeNamesNoFile(d: Image)
    requires 1 <= FirstFreeInode(d, 1) <= LAST_INODE
    ensures
      var n := FirstFreeInode(d, 1);
      FileOf(d, n) == None && forall k :: 1 <= k < n ==> FileOf(d, k) != None
  {
    var n := FirstFreeInode(d, 1);
    InUseIsFile(d, n);
    forall k | 1 <= k < n ensures FileOf(d, k) != None {
      assert InUse(d, k);
      InUseIsFile(d, k);
    }
  }

  lemma InUseIsFile(d: Image, i: nat)
    requires i < INODE_NUM
    ensures FileOf(d, i) != None <==> InUse(d, i)
  {
  }

  /** Creating a file uses the lowest free number, makes an empty file of the given type, and
      changes no other. */
  lemma CreateMakesEmptyFile(d: Image, typ: nat32, garbage: Inode)
    requires FsInv(d) && WellFormed(garbage) && typ % 65536 != 0
    requires 1 <= FirstFreeInode(d, 1) <= LAST_INODE
    ensures
      var (d', n) := Create(d, typ, garbage);
      && 1 <= n <= LAST_INODE && FileOf(d, n) == None && (forall k :: 1 <= k < n ==> FileOf(d, k) != None)
      && FsInv(d') && FileOf(d', n) == Some(File(typ % 65536, [])) && InodeAt(d', n).typ == typ % 65536
      && (forall j :: 1 <= j <= LAST_INODE && j != n ==> FileOf(d', j) == FileOf(d, j))
  {
    var n, ino := FirstFreeInode(d, 1), garbage.(typ := typ % 65536, size := 0);
    FirstFreeNamesNoFile(d);
    PutEmpty(d, n, ino);
    PutEmptyFrame(d, n, ino);
  }
}
