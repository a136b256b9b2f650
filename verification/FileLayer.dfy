/** Files over raw blocks: 32 direct blocks and one indirect block per inode.  The disk
    image refines a map from inode number to the bytes last written. */
module FileLayer {
  import opened Basics
  import opened DiskLayout
  import opened BlockBitmap
  import opened InodeTable

  function BlockCount(size: nat): (n: nat)
    ensures n * BLOCK_SIZE >= size
    ensures n == 0 || (n - 1) * BLOCK_SIZE < size
  {
    if size % BLOCK_SIZE == 0 then size / BLOCK_SIZE else size / BLOCK_SIZE + 1
  }

  function Min(a: nat, b: nat): nat {
    if a < b then a else b
  }

  // ---- reading ----

  /** The inode's block numbers can be followed without leaving the disk. */
  ghost predicate Readable(d: Image, ino: Inode) {
    && WellFormed(ino) && BlockCount(ino.size) <= MAXFILE
    && (BlockCount(ino.size) > NDIRECT ==> ino.blocks[NDIRECT] < BLOCK_NUM)
    && (forall k :: 0 <= k < |DataIds(d, ino)| ==> DataIds(d, ino)[k] < BLOCK_NUM)
  }

  function IndirectIds(d: Image, ino: Inode): (ids: seq<nat32>)
    requires WellFormed(ino)
    ensures |ids| == NINDIRECT
  {
    if ino.blocks[NDIRECT] < BLOCK_NUM then Words(d[ino.blocks[NDIRECT]]) else seq(NINDIRECT, i => 0)
  }

  /** The data blocks of a file, in order: direct ones, then those the indirect block names. */
  function DataIds(d: Image, ino: Inode): (ids: seq<nat32>)
    requires WellFormed(ino) && BlockCount(ino.size) <= MAXFILE
    ensures |ids| == BlockCount(ino.size)
  {
    var n := BlockCount(ino.size);
    if n <= NDIRECT then ino.blocks[..n]
    else ino.blocks[..NDIRECT] + IndirectIds(d, ino)[..n - NDIRECT]
  }

  function ReadMany(d: Image, ids: seq<nat32>): (buf: Bytes)
    requires forall k :: 0 <= k < |ids| ==> ids[k] < BLOCK_NUM
    ensures |buf| == BLOCK_SIZE * |ids|
  {
    if ids == [] then [] else ReadMany(d, ids[..|ids| - 1]) + d[ids[|ids| - 1]]
  }

  /** What read_file hands back: whole blocks, and the size; None if there is no such inode. */
  function ReadFile(d: Image, i: nat): Option<(Bytes, nat)>
    requires i < INODE_NUM && (InodeAt(d, i).typ != 0 ==> Readable(d, InodeAt(d, i)))
  {
    var ino := InodeAt(d, i);
    if ino.typ == 0 then None else Some((ReadMany(d, DataIds(d, ino)), ino.size))
  }

  // ---- writing ----

  function BlockOf(buf: Bytes, k: nat): Block
    requires (k + 1) * BLOCK_SIZE <= |buf|
  {
    buf[k * BLOCK_SIZE..(k + 1) * BLOCK_SIZE]
  }

  function WriteMany(d: Image, ids: seq<nat32>, buf: Bytes): Image
    requires |ids| * BLOCK_SIZE <= |buf|
  {
    if ids == [] then d
    else
      var n := |ids| - 1;
      var d1 := WriteMany(d, ids[..n], buf);
      if ids[n] < BLOCK_NUM then d1[ids[n] := BlockOf(buf, n)] else d1
  }

  /** The allocation branch of write_file, for a file that had at most 32 blocks: direct
      blocks, then the indirect block, then the blocks it names.  `garbage` is what the
      uninitialised rest of the indirect block happens to contain. */
  function Grow(d: Image, ino: Inode, n: nat, garbage: seq<nat32>): (r: (Image, Inode))
    requires WellFormed(ino) && BlockCount(ino.size) <= NDIRECT && BlockCount(ino.size) < n <= MAXFILE
    requires |garbage| == NINDIRECT
    ensures WellFormed(r.1)
  {
    var was := BlockCount(ino.size);
    var direct := Min(n, NDIRECT);
    var (d1, ids) := AllocMany(d, direct - was);
    var ino1 := ino.(blocks := ino.blocks[..was] + ids + ino.blocks[direct..]);
    if n <= NDIRECT then (d1, ino1)
    else
      var (d2, ind) := Alloc(d1);
      var (d3, entries) := AllocMany(d2, n - NDIRECT);
      var table: Block := FromWords(entries + garbage[n - NDIRECT..]);
      (if ind < BLOCK_NUM then d3[ind := table] else d3, ino1.(blocks := ino1.blocks[NDIRECT := ind]))
  }

  /** The writes the code handles: an existing file of at most 32 blocks keeps or raises
      its block count; writes to no file and oversized writes change nothing. */
  predicate Handled(d: Image, i: nat, size: nat)
    requires i < INODE_NUM
  {
    var ino := InodeAt(d, i);
    ino.typ != 0 && BlockCount(size) <= MAXFILE ==>
      BlockCount(ino.size) <= NDIRECT && BlockCount(ino.size) <= BlockCount(size)
  }

  /** The two data loops of write_file: direct blocks, then those of the indirect block. */
  function WriteData(d: Image, ino: Inode, n: nat, buf: Bytes): Image
    requires WellFormed(ino) && n <= MAXFILE && |buf| == n * BLOCK_SIZE
  {
    var d3 := WriteMany(d, ino.blocks[..Min(n, NDIRECT)], buf);
    if n <= NDIRECT then d3
    else WriteMany(d3, IndirectIds(d3, ino)[..n - NDIRECT], buf[NDIRECT * BLOCK_SIZE..])
  }

  function WriteFile(d: Image, i: nat, buf: Bytes, size: nat32, garbage: seq<nat32>): Image
    requires i < INODE_NUM && Handled(d, i, size)
    requires |buf| == BlockCount(size) * BLOCK_SIZE && |garbage| == NINDIRECT
  {
    var ino := InodeAt(d, i);
    var n := BlockCount(size);
    if ino.typ == 0 || n > MAXFILE then d
    else
      var (d1, ino1) := if BlockCount(ino.size) < n then Grow(d, ino, n, garbage) else (d, ino);
      var ino2 := ino1.(size := size);
      WriteData(PutInode(d1, i, ino2), ino2, n, buf)
  }

  const T_DIR: nat32 := 1
  const T_FILE: nat32 := 2

  /** alloc_inode: the new inode's other fields are whatever the stack held. */
  function Create(d: Image, typ: nat32, garbage: Inode): (Image, nat)
    requires WellFormed(garbage)
  {
    var n := FirstFreeInode(d, 1);
    if n == 0 then (d, 0) else (PutInode(d, n, garbage.(typ := typ % 65536, size := 0)), n)
  }

  // ---- the invariant ----

  ghost predicate NoDup(s: seq<nat32>) {
    forall i, j :: 0 <= i < j < |s| ==> s[i] != s[j]
  }

  /** Every block the file owns: its data blocks and, if it has one, its indirect block. */
  ghost function Refs(d: Image, ino: Inode): (rs: seq<nat32>)
    requires WellFormed(ino) && BlockCount(ino.size) <= MAXFILE
    ensures DataIds(d, ino) <= rs
  {
    DataIds(d, ino) + if BlockCount(ino.size) > NDIRECT then [ino.blocks[NDIRECT]] else []
  }

  ghost predicate Sound(d: Image, ino: Inode) {
    && WellFormed(ino) && BlockCount(ino.size) <= MAXFILE
    && NoDup(Refs(d, ino))
    && forall r :: r in Refs(d, ino) ==> FIRST_DATA <= r < BLOCK_NUM && Taken(d, r)
  }

  ghost predicate Live(d: Image, i: nat) {
    1 <= i <= LAST_INODE && InodeAt(d, i).typ != 0
  }

  /** The blocks file i owns. */
  ghost function Owned(d: Image, i: nat): seq<nat32>
    requires i < INODE_NUM
  {
    if BlockCount(InodeAt(d, i).size) <= MAXFILE then Refs(d, InodeAt(d, i)) else []
  }

  ghost predicate Apart(d: Image, i: nat, j: nat)
    requires i < INODE_NUM && j < INODE_NUM
  {
    forall r :: r in Owned(d, i) ==> r !in Owned(d, j)
  }

  /** Block ownership: the blocks of all files are pairwise distinct, lie in the data
      region and are marked as taken. */
  ghost predicate FsInv(d: Image) {
    && (forall i :: Live(d, i) ==> Sound(d, InodeAt(d, i)))
    && (forall i, j :: Live(d, i) && Live(d, j) && i != j ==> Apart(d, i, j))
  }

  /** The bytes of a file, for inodes that can be followed. */
  ghost function Text(d: Image, ino: Inode): Bytes {
    if Readable(d, ino) then ReadMany(d, DataIds(d, ino))[..ino.size] else []
  }

  /** A file as its users know it. */
  datatype File = File(typ: nat, text: Bytes)

  /** The file of inode number i: None if it does not exist. */
  ghost function FileOf(d: Image, i: nat): Option<File>
    requires i < INODE_NUM
  {
    if InodeAt(d, i).typ == 0 then None else Some(File(InodeAt(d, i).typ, Text(d, InodeAt(d, i))))
  }

  lemma SoundIsReadable(d: Image, ino: Inode)
    requires Sound(d, ino)
    ensures Readable(d, ino)
  {
    var rs := Refs(d, ino);
    forall k | 0 <= k < |DataIds(d, ino)| ensures DataIds(d, ino)[k] < BLOCK_NUM {
      assert rs[k] == DataIds(d, ino)[k];
      assert rs[k] in rs;
    }
    if BlockCount(ino.size) > NDIRECT {
      assert rs[|rs| - 1] in rs;
    }
  }

  /** read_file returns the abstract content: exactly `size` bytes of it count. */
  lemma ReadFileReadsFile(d: Image, i: nat)
    requires FsInv(d) && 1 <= i <= LAST_INODE
    ensures InodeAt(d, i).typ != 0 ==> Readable(d, InodeAt(d, i))
    ensures ReadFile(d, i).None? <==> FileOf(d, i).None?
    ensures ReadFile(d, i).Some? ==>
      var (buf, size) := ReadFile(d, i).value;
      size <= |buf| && FileOf(d, i) == Some(File(InodeAt(d, i).typ, buf[..size]))
  {
    if InodeAt(d, i).typ != 0 {
      assert Live(d, i);
      SoundIsReadable(d, InodeAt(d, i));
    }
  }
}
