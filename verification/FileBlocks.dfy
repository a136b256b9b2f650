/** What writing and reading runs of blocks does to an image, and what a growing file gets. */
module FileBlocks {
  import opened Basics
  import opened DiskLayout
  import opened BlockBitmap
  import opened InodeTable
  import opened FileLayer

  // ---- runs of blocks ----

  lemma {:induction false} WriteManyFrame(d: Image, ids: seq<nat32>, buf: Bytes, b: nat)
    requires |ids| * BLOCK_SIZE <= |buf| && b < BLOCK_NUM && b !in ids
    ensures WriteMany(d, ids, buf)[b] == d[b]
  {
    if ids != [] {
      WriteManyFrame(d, ids[..|ids| - 1], buf, b);
    }
  }

  lemma {:induction false} WriteManyAt(d: Image, ids: seq<nat32>, buf: Bytes, k: nat)
    requires |ids| * BLOCK_SIZE <= |buf| && NoDup(ids) && k < |ids| && ids[k] < BLOCK_NUM
    ensures WriteMany(d, ids, buf)[ids[k]] == BlockOf(buf, k)
  {
    var n := |ids| - 1;
    if k < n {
      WriteManyAt(d, ids[..n], buf, k);
    }
  }

  lemma {:induction false} WriteManyAppend(d: Image, a: seq<nat32>, b: seq<nat32>, buf: Bytes)
    requires (|a| + |b|) * BLOCK_SIZE <= |buf|
    ensures |a| * BLOCK_SIZE <= |buf| && |b| * BLOCK_SIZE <= |buf[|a| * BLOCK_SIZE..]|
    ensures WriteMany(d, a + b, buf) == WriteMany(WriteMany(d, a, buf), b, buf[|a| * BLOCK_SIZE..])
  {
    if b == [] {
      assert a + b == a;
    } else {
      var n := |b| - 1;
      WriteManyAppend(d, a, b[..n], buf);
      assert (a + b)[..|a| + n] == a + b[..n];
      assert BlockOf(buf[|a| * BLOCK_SIZE..], n) == BlockOf(buf, |a| + n);
    }
  }

  lemma {:induction false} ReadManyIs(d: Image, ids: seq<nat32>, buf: Bytes)
    requires |ids| * BLOCK_SIZE <= |buf|
    requires forall k :: 0 <= k < |ids| ==> ids[k] < BLOCK_NUM && d[ids[k]] == BlockOf(buf, k)
    ensures ReadMany(d, ids) == buf[..|ids| * BLOCK_SIZE]
  {
    if ids != [] {
      var n := |ids| - 1;
      ReadManyIs(d, ids[..n], buf);
      assert d[ids[n]] == BlockOf(buf, n);
      assert buf[..n * BLOCK_SIZE] + BlockOf(buf, n) == buf[..|ids| * BLOCK_SIZE];
    }
  }

  lemma {:induction false} ReadManySame(d: Image, d': Image, ids: seq<nat32>)
    requires forall k :: 0 <= k < |ids| ==> ids[k] < BLOCK_NUM && d'[ids[k]] == d[ids[k]]
    ensures ReadMany(d', ids) == ReadMany(d, ids)
  {
    if ids != [] {
      ReadManySame(d, d', ids[..|ids| - 1]);
    }
  }

  // ---- files whose blocks were left alone ----

  /** Outside the bitmap, only blocks of rs differ, and no bit was cleared. */
  ghost predicate Touches(d: Image, d': Image, rs: seq<nat32>) {
    && (forall b: nat32 :: b < BLOCK_NUM && !(2 <= b < BBlock(BLOCK_NUM)) && b !in rs ==> d'[b] == d[b])
    && (forall p :: 0 <= p < BLOCK_NUM && Taken(d, p) ==> Taken(d', p))
  }

  lemma SameBlocksSameFile(d: Image, d': Image, ino: Inode)
    requires Sound(d, ino)
    requires forall r :: r in Refs(d, ino) ==> d'[r] == d[r]
    requires forall r :: r in Refs(d, ino) ==> Taken(d', r)
    ensures DataIds(d', ino) == DataIds(d, ino) && Refs(d', ino) == Refs(d, ino) && Sound(d', ino)
    ensures Readable(d, ino) && Readable(d', ino)
    ensures ReadMany(d', DataIds(d', ino)) == ReadMany(d, DataIds(d, ino))
  {
    var rs := Refs(d, ino);
    if BlockCount(ino.size) > NDIRECT {
      assert rs[|rs| - 1] in rs;
    }
    assert DataIds(d', ino) == DataIds(d, ino);
    SoundIsReadable(d, ino);
    SoundIsReadable(d', ino);
    forall k | 0 <= k < |DataIds(d, ino)| ensures d'[DataIds(d, ino)[k]] == d[DataIds(d, ino)[k]] {
      assert rs[k] in rs;
    }
    ReadManySame(d, d', DataIds(d, ino));
  }

  // ---- growing ----

  lemma FreshAppend(d: Image, d1: Image, d2: Image, s: seq<nat32>, t: seq<nat32>)
    requires FreshBlocks(d, d1, s) && OnlyMarks(d, d1) && FreshBlocks(d1, d2, t) && OnlyMarks(d1, d2)
    ensures FreshBlocks(d, d2, s + t)
  {
    var u := s + t;
    forall i, j | 0 <= i < j < |u| ensures u[i] != u[j] {
      if i < |s| && j >= |s| {
        assert Taken(d1, s[i]) && !Taken(d1, t[j - |s|]);
      }
    }
  }

  lemma AllocOneFresh(d: Image)
    requires |FreeBits(d)| >= 1
    ensures FreshBlocks(d, Alloc(d).0, [Alloc(d).1]) && OnlyMarks(d, Alloc(d).0)
    ensures |FreeBits(Alloc(d).0)| == |FreeBits(d)| - 1
  {
    AllocUsesOneBit(d);
    AllocOnlyMarks(d);
    MarkMeaning(d, Alloc(d).1, Alloc(d).1);
  }

  /** How many blocks a write from `was` to n blocks allocates. */
  function Need(was: nat, n: nat): nat
    requires was <= NDIRECT && was <= n
  {
    if n <= NDIRECT then n - was else NDIRECT - was + 1 + (n - NDIRECT)
  }

  /** The blocks Grow allocates, in the order the grown file will list them. */
  function Grown(d: Image, ino: Inode, n: nat): (ids: seq<nat32>)
    requires WellFormed(ino) && BlockCount(ino.size) <= NDIRECT && BlockCount(ino.size) < n <= MAXFILE
  {
    var was := BlockCount(ino.size);
    var (d1, ids) := AllocMany(d, Min(n, NDIRECT) - was);
    if n <= NDIRECT then ids
    else
      var (d2, ind) := Alloc(d1);
      ids + AllocMany(d2, n - NDIRECT).1 + [ind]
  }

  lemma RotateFresh(d: Image, d': Image, a: seq<nat32>, x: nat32, b: seq<nat32>)
    requires FreshBlocks(d, d', a + [x] + b)
    ensures FreshBlocks(d, d', a + b + [x])
  {
    var s, t := a + [x] + b, a + b + [x];
    forall i | 0 <= i < |t|
      ensures FIRST_DATA <= t[i] < BLOCK_NUM && !Taken(d, t[i]) && Taken(d', t[i])
    {
      assert t[i] == s[if i < |a| then i else if i < |a| + |b| then i + 1 else |a|];
    }
    forall i, j | 0 <= i < j < |t| ensures t[i] != t[j] {
      var i' := if i < |a| then i else if i < |a| + |b| then i + 1 else |a|;
      var j' := if j < |a| then j else if j < |a| + |b| then j + 1 else |a|;
      assert i' != j' && t[i] == s[i'] && t[j] == s[j'];
    }
  }

  lemma OnlyMarksTransitive(d: Image, d1: Image, d2: Image)
    requires OnlyMarks(d, d1) && OnlyMarks(d1, d2)
    ensures OnlyMarks(d, d2)
  {
  }

  lemma GrownSmall(d: Image, ino: Inode, n: nat, garbage: seq<nat32>)
    requires WellFormed(ino) && BlockCount(ino.size) <= NDIRECT && BlockCount(ino.size) < n <= NDIRECT
    requires |garbage| == NINDIRECT && Need(BlockCount(ino.size), n) <= |FreeBits(d)|
    ensures
      var (d', ino') := Grow(d, ino, n, garbage);
      && FreshBlocks(d, d', Grown(d, ino, n)) && OnlyMarks(d, d')
      && ino'.blocks[..n] == ino.blocks[..BlockCount(ino.size)] + Grown(d, ino, n)
  {
    AllocManyFresh(d, n - BlockCount(ino.size));
    AllocManyOnlyMarks(d, n - BlockCount(ino.size));
  }

  /** The three allocations of a file that outgrows its direct blocks. */
  lemma GrownLargeFresh(d: Image, was: nat, n: nat)
    requires was <= NDIRECT < n <= MAXFILE && Need(was, n) <= |FreeBits(d)|
    ensures
      var (d1, ids) := AllocMany(d, NDIRECT - was);
      var (d2, ind) := Alloc(d1);
      var (d3, entries) := AllocMany(d2, n - NDIRECT);
      FreshBlocks(d, d3, ids + entries + [ind]) && OnlyMarks(d, d3)
  {
    var (d1, ids) := AllocMany(d, NDIRECT - was);
    AllocManyFresh(d, NDIRECT - was);
    AllocManyOnlyMarks(d, NDIRECT - was);
    var (d2, ind) := Alloc(d1);
    AllocOneFresh(d1);
    var (d3, entries) := AllocMany(d2, n - NDIRECT);
    AllocManyFresh(d2, n - NDIRECT);
    AllocManyOnlyMarks(d2, n - NDIRECT);
    FreshAppend(d, d1, d2, ids, [ind]);
    OnlyMarksTransitive(d, d1, d2);
    FreshAppend(d, d2, d3, ids + [ind], entries);
    OnlyMarksTransitive(d, d2, d3);
    RotateFresh(d, d3, ids, ind, entries);
  }

  lemma DataWriteKeepsBits(d: Image, id: nat, b: Block)
    requires BBlock(BLOCK_NUM) <= id < BLOCK_NUM
    ensures forall p :: 0 <= p < BLOCK_NUM ==> Taken(d[id := b], p) == Taken(d, p)
  {
  }

  /** Storing an indirect table and reading it back through the inode. */
  lemma TableStored(d: Image, ind: nat32, ws: seq<nat32>, ino: Inode)
    requires ind < BLOCK_NUM && |ws| == NINDIRECT && WellFormed(ino) && ino.blocks[NDIRECT] == ind
    ensures IndirectIds(d[ind := FromWords(ws)], ino) == ws
  {
    WordsRoundTrip(ws);
  }

  lemma FreshThenWritten(d: Image, d3: Image, ids: seq<nat32>, b: Block)
    requires |ids| > 0 && FreshBlocks(d, d3, ids) && OnlyMarks(d, d3)
    ensures
      var ind := ids[|ids| - 1];
      FreshBlocks(d, d3[ind := b], ids) && Touches(d, d3[ind := b], ids)
  {
    var ind := ids[|ids| - 1];
    assert FIRST_DATA <= ind < BLOCK_NUM;
    DataWriteKeepsBits(d3, ind, b);
  }

  /** Grow, spelled out for a file that keeps to its direct blocks. */
  lemma GrowSmallIs(d: Image, ino: Inode, n: nat, garbage: seq<nat32>)
    requires WellFormed(ino) && BlockCount(ino.size) < n <= NDIRECT && |garbage| == NINDIRECT
    ensures
      var was := BlockCount(ino.size);
      var (d1, ids) := AllocMany(d, n - was);
      Grow(d, ino, n, garbage) == (d1, ino.(blocks := ino.blocks[..was] + ids + ino.blocks[n..]))
  {
  }

  /** The indirect block of a growing file and the blocks it names. */
  function Indirect(d: Image, blocks: seq<nat32>, count: nat, garbage: seq<nat32>): (Image, seq<nat32>)
    requires |blocks| == NDIRECT + 1 && |garbage| == NINDIRECT && count <= NINDIRECT
  {
    var (d2, ind) := Alloc(d);
    var (d3, entries) := AllocMany(d2, count);
    var table: Block := FromWords(entries + garbage[count..]);
    (if ind < BLOCK_NUM then d3[ind := table] else d3, blocks[NDIRECT := ind])
  }

  /** Grow, spelled out for a file that outgrows its direct blocks. */
  lemma GrowLargeIs(d: Image, ino: Inode, n: nat, garbage: seq<nat32>)
    requires WellFormed(ino) && BlockCount(ino.size) <= NDIRECT < n <= MAXFILE && |garbage| == NINDIRECT
    ensures
      var was := BlockCount(ino.size);
      var (d1, ids) := AllocMany(d, NDIRECT - was);
      var (d', blocks) := Indirect(d1, ino.blocks[..was] + ids + ino.blocks[NDIRECT..], n - NDIRECT, garbage);
      Grow(d, ino, n, garbage) == (d', ino.(blocks := blocks))
  {
  }

  /** What a file that outgrows its direct blocks gets. */
  lemma GrowLargeShape(d: Image, ino: Inode, n: nat, garbage: seq<nat32>)
    returns (d3: Image, ids: seq<nat32>, entries: seq<nat32>, ind: nat32)
    requires WellFormed(ino) && BlockCount(ino.size) <= NDIRECT < n <= MAXFILE && |garbage| == NINDIRECT
    requires Need(BlockCount(ino.size), n) <= |FreeBits(d)|
    ensures ind < BLOCK_NUM && |ids| == NDIRECT - BlockCount(ino.size) && |entries| == n - NDIRECT
    ensures ids + [ind] + entries == AllocMany(d, n - BlockCount(ino.size) + 1).1
    ensures Grown(d, ino, n) == ids + entries + [ind]
    ensures FreshBlocks(d, d3, ids + entries + [ind]) && OnlyMarks(d, d3)
    ensures Grow(d, ino, n, garbage).0 == d3[ind := FromWords(entries + garbage[n - NDIRECT..])]
    ensures
      var blocks := ino.blocks[..BlockCount(ino.size)] + ids + ino.blocks[NDIRECT..];
      Grow(d, ino, n, garbage).1 == ino.(blocks := blocks[NDIRECT := ind])
  {
    var was := BlockCount(ino.size);
    ids := AllocMany(d, NDIRECT - was).1;
    ind := Alloc(AllocMany(d, NDIRECT - was).0).1;
    var d2 := Alloc(AllocMany(d, NDIRECT - was).0).0;
    d3, entries := AllocMany(d2, n - NDIRECT).0, AllocMany(d2, n - NDIRECT).1;
    GrowLargeIs(d, ino, n, garbage);
    GrownLargeFresh(d, was, n);
    InOrder(d, was, n, ids, ind, entries);
  }

  /** The references of the grown file, from the parts it was put together of. */
  lemma JoinParts(d3: Image, ino: Inode, olds: seq<nat32>, ids: seq<nat32>, entries: seq<nat32>, rest: seq<nat32>, ind: nat32)
    requires WellFormed(ino) && ind < BLOCK_NUM && |entries + rest| == NINDIRECT
    requires ino.blocks == olds + ids + [ind] && |olds + ids| == NDIRECT
    ensures
      var d' := d3[ind := FromWords(entries + rest)];
      ino.blocks[..NDIRECT] + IndirectIds(d', ino)[..|entries|] + [ino.blocks[NDIRECT]] == olds + (ids + entries + [ind])
  {
    TableStored(d3, ind, entries + rest, ino);
    assert (entries + rest)[..|entries|] == entries;
    assert ino.blocks[..NDIRECT] == olds + ids;
    Regroup(olds, ids, entries, [ind]);
  }

  lemma Regroup(a: seq<nat32>, b: seq<nat32>, c: seq<nat32>, e: seq<nat32>)
    ensures a + b + c + e == a + (b + c + e)
  {
  }

  lemma GrownLarge(d: Image, ino: Inode, n: nat, garbage: seq<nat32>)
    requires WellFormed(ino) && BlockCount(ino.size) <= NDIRECT < n <= MAXFILE
    requires |garbage| == NINDIRECT && Need(BlockCount(ino.size), n) <= |FreeBits(d)|
    ensures
      var (d', ino') := Grow(d, ino, n, garbage);
      && FreshBlocks(d, d', Grown(d, ino, n)) && Touches(d, d', Grown(d, ino, n))
      && ino'.blocks[..NDIRECT] + IndirectIds(d', ino')[..n - NDIRECT] + [ino'.blocks[NDIRECT]]
         == ino.blocks[..BlockCount(ino.size)] + Grown(d, ino, n)
  {
    var olds := ino.blocks[..BlockCount(ino.size)];
    var d3, ids, entries, ind := GrowLargeShape(d, ino, n, garbage);
    var all := ids + entries + [ind];
    assert all[|all| - 1] == ind;
    FreshThenWritten(d, d3, all, FromWords(entries + garbage[n - NDIRECT..]));
    var ino' := ino.(blocks := (olds + ids + ino.blocks[NDIRECT..])[NDIRECT := ind]);
    assert ino'.blocks == olds + ids + [ind];
    JoinParts(d3, ino', olds, ids, entries, garbage[n - NDIRECT..], ind);
  }

  /** The blocks a file of n blocks has beyond its first `was`: direct ones, the indirect block, the
      blocks that it names. */
  function TakenBlocks(d: Image, ino: Inode, was: nat, n: nat): seq<nat32>
    requires WellFormed(ino) && was <= NDIRECT < n <= MAXFILE
  {
    ino.blocks[was..NDIRECT] + [ino.blocks[NDIRECT]] + IndirectIds(d, ino)[..n - NDIRECT]
  }

  /** A growing file takes its blocks from successive allocations in this order. */
  lemma GrowTakesInOrder(d: Image, ino: Inode, n: nat, garbage: seq<nat32>)
    requires WellFormed(ino) && BlockCount(ino.size) <= NDIRECT < n <= MAXFILE
    requires |garbage| == NINDIRECT && Need(BlockCount(ino.size), n) <= |FreeBits(d)|
    ensures
      var was := BlockCount(ino.size);
      var (d', ino') := Grow(d, ino, n, garbage);
      TakenBlocks(d', ino', was, n) == AllocMany(d, n - was + 1).1
  {
    var olds := ino.blocks[..BlockCount(ino.size)];
    var d3, ids, entries, ind := GrowLargeShape(d, ino, n, garbage);
    var ino' := ino.(blocks := (olds + ids + ino.blocks[NDIRECT..])[NDIRECT := ind]);
    TakenIs(d3, ino', olds, ids, entries, garbage[n - NDIRECT..], ind);
  }

  lemma InOrder(d: Image, was: nat, n: nat, ids: seq<nat32>, ind: nat32, entries: seq<nat32>)
    requires was <= NDIRECT < n && ids == AllocMany(d, NDIRECT - was).1
    requires ind == Alloc(AllocMany(d, NDIRECT - was).0).1
    requires entries == AllocMany(Alloc(AllocMany(d, NDIRECT - was).0).0, n - NDIRECT).1
    ensures ids + [ind] + entries == AllocMany(d, n - was + 1).1
  {
    var a, b, c := NDIRECT - was, n - NDIRECT, n - was + 1;
    assert c == a + 1 + b;
    InThreeSteps(d, a, b);
  }

  lemma TakenIs(d3: Image, ino: Inode, olds: seq<nat32>, ids: seq<nat32>, entries: seq<nat32>, rest: seq<nat32>, ind: nat32)
    requires WellFormed(ino) && ind < BLOCK_NUM && |entries + rest| == NINDIRECT && |entries| > 0
    requires |olds + ids| == NDIRECT && ino.blocks[..NDIRECT] == olds + ids && ino.blocks[NDIRECT] == ind
    ensures
      TakenBlocks(d3[ind := FromWords(entries + rest)], ino, |olds|, NDIRECT + |entries|) == ids + [ind] + entries
  {
    TableStored(d3, ind, entries + rest, ino);
    assert (entries + rest)[..|entries|] == entries;
    assert ino.blocks[|olds|..NDIRECT] == ino.blocks[..NDIRECT][|olds|..] == ids;
  }

  lemma InThreeSteps(d: Image, a: nat, b: nat)
    ensures
      var (d1, ids) := AllocMany(d, a);
      var (d2, ind) := Alloc(d1);
      AllocMany(d, a + 1 + b).1 == ids + [ind] + AllocMany(d2, b).1
  {
    AllocManySplit(d, a + 1, b);
  }

  lemma GrowsDirectly(d: Image, ino: Inode, n: nat, garbage: seq<nat32>)
    requires WellFormed(ino) && BlockCount(ino.size) < n <= NDIRECT && |garbage| == NINDIRECT
    ensures
      var was := BlockCount(ino.size);
      Grow(d, ino, n, garbage).1.blocks[was..n] == AllocMany(d, n - was).1
  {
    GrowSmallIs(d, ino, n, garbage);
  }
}
