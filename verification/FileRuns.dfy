/** Whole runs: the disk image refines a map from inode numbers to files. */
module FileRuns {
  import opened Basics
  import opened DiskLayout
  import opened BlockBitmap
  import opened InodeTable
  import opened FileLayer
  import opened FileTheorems

  datatype Op =
    | CreateFile(typ: nat32, stack: Inode)
    | WriteFileOp(i: nat, buf: Bytes, size: nat32, table: seq<nat32>)

  /** The operations the code handles, in state d. */
  ghost predicate Allowed(d: Image, op: Op) {
    match op
    case CreateFile(typ, stack) =>
      WellFormed(stack) && typ % 65536 != 0 && 1 <= FirstFreeInode(d, 1) <= LAST_INODE
    case WriteFileOp(i, buf, size, table) =>
      && 1 <= i <= LAST_INODE && |buf| == BlockCount(size) * BLOCK_SIZE && |table| == NINDIRECT
      && Handled(d, i, size) && EnoughSpace(d, i, size)
  }

  ghost function Step(d: Image, op: Op): Image
    requires Allowed(d, op)
  {
    match op
    case CreateFile(typ, stack) => Create(d, typ, stack).0
    case WriteFileOp(i, buf, size, table) => WriteFile(d, i, buf, size, table)
  }

  ghost predicate Next(d: Image, op: Op, d': Image) {
    Allowed(d, op) && d' == Step(d, op)
  }

  /** A run from the freshly formatted disk. */
  ghost predicate Run(ds: seq<Image>, ops: seq<Op>) {
    && |ds| == |ops| + 1 && ds[0] == Blank()
    && forall k {:trigger Next(ds[k], ops[k], ds[k + 1])} :: 0 <= k < |ops| ==> Next(ds[k], ops[k], ds[k + 1])
  }

  // ---- the abstract file system ----

  type Store = map<nat, File>

  ghost function StoreOf(d: Image): Store {
    map i: nat | 1 <= i <= LAST_INODE && FileOf(d, i).Some? :: FileOf(d, i).value
  }

  /** Lowest number at or above i that names no file. */
  ghost function Lowest(m: Store, i: nat): nat
    decreases INODE_NUM - i
  {
    if i >= INODE_NUM || i !in m then i else Lowest(m, i + 1)
  }

  ghost function AbstractStep(m: Store, op: Op): Store {
    match op
    case CreateFile(typ, stack) => m[Lowest(m, 1) := File(typ % 65536, [])]
    case WriteFileOp(i, buf, size, table) =>
      if i in m && BlockCount(size) <= MAXFILE && size <= |buf| then m[i := File(m[i].typ, buf[..size])] else m
  }

  lemma BlankIsEmpty()
    ensures FsInv(Blank()) && StoreOf(Blank()) == map[]
  {
    forall i | 0 <= i < INODE_NUM ensures InodeAt(Blank(), i).typ == 0 {
      var b: Block := Blank()[IBlock(i)];
      assert b == ZERO_BLOCK;
      assert Words(b)[Slot(i)] == 0;
    }
  }

  lemma InStore(d: Image, i: nat)
    ensures i in StoreOf(d) <==> 1 <= i <= LAST_INODE && InUse(d, i)
    ensures i in StoreOf(d) ==> FileOf(d, i) == Some(StoreOf(d)[i])
  {
  }

  /** Every number below n is in use, n itself is not. */
  lemma {:induction false} LowestIs(m: Store, i: nat, n: nat)
    requires i <= n < INODE_NUM && n !in m && forall k :: i <= k < n ==> k in m
    ensures Lowest(m, i) == n
    decreases n - i
  {
    if i < n {
      LowestIs(m, i + 1, n);
    }
  }

  lemma LowestIsFirstFree(d: Image)
    requires 1 <= FirstFreeInode(d, 1) <= LAST_INODE
    ensures Lowest(StoreOf(d), 1) == FirstFreeInode(d, 1)
  {
    var n := FirstFreeInode(d, 1);
    forall k | 1 <= k < n ensures k in StoreOf(d) {
      assert InUse(d, k);
      InStore(d, k);
    }
    InStore(d, n);
    LowestIs(StoreOf(d), 1, n);
  }

  /** One file changed, all others are as before. */
  lemma StoreUpdate(d: Image, d': Image, n: nat, file: File)
    requires 1 <= n <= LAST_INODE && FileOf(d', n) == Some(file)
    requires forall j :: 1 <= j <= LAST_INODE && j != n ==> FileOf(d', j) == FileOf(d, j)
    ensures StoreOf(d') == StoreOf(d)[n := file]
  {
    var m, m' := StoreOf(d)[n := file], StoreOf(d');
    forall i: nat ensures (i in m' <==> i in m) && (i in m ==> m'[i] == m[i]) {
      StoreAt(d, d', n, file, i);
    }
  }

  lemma StoreAt(d: Image, d': Image, n: nat, file: File, i: nat)
    requires 1 <= n <= LAST_INODE && FileOf(d', n) == Some(file)
    requires 1 <= i <= LAST_INODE && i != n ==> FileOf(d', i) == FileOf(d, i)
    ensures
      var m, m' := StoreOf(d)[n := file], StoreOf(d');
      (i in m' <==> i in m) && (i in m ==> m'[i] == m[i])
  {
    InStore(d, i);
    InStore(d', i);
  }

  lemma CreateRefines(d: Image, typ: nat32, stack: Inode)
    requires FsInv(d) && WellFormed(stack) && typ % 65536 != 0 && 1 <= FirstFreeInode(d, 1) <= LAST_INODE
    ensures
      var d' := Create(d, typ, stack).0;
      FsInv(d') && StoreOf(d') == StoreOf(d)[Lowest(StoreOf(d), 1) := File(typ % 65536, [])]
  {
    var (d', n) := Create(d, typ, stack);
    CreateMakesEmptyFile(d, typ, stack);
    LowestIsFirstFree(d);
    StoreUpdate(d, d', n, File(typ % 65536, []));
  }

  lemma WriteRefines(d: Image, i: nat, buf: Bytes, size: nat32, table: seq<nat32>)
    requires FsInv(d) && 1 <= i <= LAST_INODE && |buf| == BlockCount(size) * BLOCK_SIZE && |table| == NINDIRECT
    requires Handled(d, i, size) && EnoughSpace(d, i, size)
    ensures
      var d' := WriteFile(d, i, buf, size, table);
      && FsInv(d')
      && StoreOf(d') == if i in StoreOf(d) && BlockCount(size) <= MAXFILE then StoreOf(d)[i := File(StoreOf(d)[i].typ, buf[..size])] else StoreOf(d)
  {
    InStore(d, i);
    if InodeAt(d, i).typ != 0 && BlockCount(size) <= MAXFILE {
      ExistingFile(d, i, buf, size, table);
    } else {
      assert WriteFile(d, i, buf, size, table) == d;
    }
  }

  lemma ExistingFile(d: Image, i: nat, buf: Bytes, size: nat32, table: seq<nat32>)
    requires FsInv(d) && Live(d, i) && |buf| == BlockCount(size) * BLOCK_SIZE && |table| == NINDIRECT
    requires Handled(d, i, size) && EnoughSpace(d, i, size) && BlockCount(size) <= MAXFILE
    ensures
      var d' := WriteFile(d, i, buf, size, table);
      FsInv(d') && i in StoreOf(d) && StoreOf(d') == StoreOf(d)[i := File(StoreOf(d)[i].typ, buf[..size])]
  {
    StoredType(d, i);
    WriteThenRead(d, i, buf, size, table);
    StoreUpdate(d, WriteFile(d, i, buf, size, table), i, File(InodeAt(d, i).typ, buf[..size]));
  }

  lemma StoredType(d: Image, i: nat)
    requires Live(d, i)
    ensures i in StoreOf(d) && StoreOf(d)[i].typ == InodeAt(d, i).typ
  {
    InStore(d, i);
  }

  /** One operation on the image is the same operation on the map. */
  lemma StepRefines(d: Image, op: Op)
    requires FsInv(d) && Allowed(d, op)
    ensures FsInv(Step(d, op)) && StoreOf(Step(d, op)) == AbstractStep(StoreOf(d), op)
  {
    match op {
      case CreateFile(typ, stack) => CreateRefines(d, typ, stack);
      case WriteFileOp(i, buf, size, table) => WriteRefines(d, i, buf, size, table);
    }
  }

  ghost function AbstractRun(ops: seq<Op>): Store {
    if ops == [] then map[] else AbstractStep(AbstractRun(ops[..|ops| - 1]), ops[|ops| - 1])
  }

  lemma RunStep(ds: seq<Image>, ops: seq<Op>, k: nat)
    requires Run(ds, ops) && k < |ops| && FsInv(ds[k])
    ensures FsInv(ds[k + 1])
    ensures StoreOf(ds[k + 1]) == AbstractStep(StoreOf(ds[k]), ops[k])
  {
    assert Next(ds[k], ops[k], ds[k + 1]);
    StepRefines(ds[k], ops[k]);
  }

  lemma RunStarts(ds: seq<Image>, ops: seq<Op>)
    requires Run(ds, ops)
    ensures FsInv(ds[0]) && StoreOf(ds[0]) == map[]
  {
    BlankIsEmpty();
    assert ds[0] == Blank();
  }

  lemma RunNext(ds: seq<Image>, ops: seq<Op>, k: nat)
    requires Run(ds, ops) && k < |ops|
    ensures Next(ds[k], ops[k], ds[k + 1])
  {
  }

  lemma OwnershipStep(d: Image, op: Op, d': Image)
    requires Next(d, op, d') && FsInv(d)
    ensures FsInv(d')
  {
    StepRefines(d, op);
  }

  /** Block ownership in every reachable state. */
  lemma {:induction false} RunKeepsOwnership(ds: seq<Image>, ops: seq<Op>, k: nat)
    requires Run(ds, ops) && k < |ds|
    ensures FsInv(ds[k])
  {
    if k == 0 {
      RunStarts(ds, ops);
    } else {
      var j := k - 1;
      RunKeepsOwnership(ds, ops, j);
      RunNext(ds, ops, j);
      OwnershipStep(ds[j], ops[j], ds[j + 1]);
    }
  }

  /** After any run the image holds, file by file, exactly what the map holds. */
  lemma {:induction false} RunRefines(ds: seq<Image>, ops: seq<Op>)
    requires Run(ds, ops)
    ensures StoreOf(ds[|ops|]) == AbstractRun(ops)
    decreases |ops|
  {
    var n := |ops|;
    if n == 0 {
      BlankIsEmpty();
    } else {
      RunRefines(ds[..n], ops[..n - 1]);
      RunKeepsOwnership(ds, ops, n - 1);
      RunStep(ds, ops, n - 1);
    }
  }

  lemma ReadBack(d: Image, m: Store, i: nat)
    requires FsInv(d) && m == StoreOf(d) && 1 <= i <= LAST_INODE
    ensures InodeAt(d, i).typ != 0 ==> Readable(d, InodeAt(d, i))
    ensures ReadFile(d, i).Some? <==> i in m
    ensures i in m ==>
              var (buf, size) := ReadFile(d, i).value;
              size == |m[i].text| && size <= |buf| && buf[..size] == m[i].text && InodeAt(d, i).typ == m[i].typ
  {
    ReadFileReadsFile(d, i);
  }

  /** read_file after any run: the exact size, the bytes of the map, and the type. */
  lemma RunReadsBack(ds: seq<Image>, ops: seq<Op>, i: nat)
    requires Run(ds, ops) && 1 <= i <= LAST_INODE
    ensures
      var d, m := ds[|ops|], AbstractRun(ops);
      && (InodeAt(d, i).typ != 0 ==> Readable(d, InodeAt(d, i)))
      && (ReadFile(d, i).Some? <==> i in m)
      && (i in m ==>
           var (buf, size) := ReadFile(d, i).value;
           size == |m[i].text| && size <= |buf| && buf[..size] == m[i].text && InodeAt(d, i).typ == m[i].typ)
  {
    RunRefines(ds, ops);
    RunKeepsOwnership(ds, ops, |ops|);
    ReadBack(ds[|ops|], AbstractRun(ops), i);
  }

  // ---- types ----

  lemma {:induction false} LowestIsFree(m: Store, i: nat)
    ensures Lowest(m, i) !in m || Lowest(m, i) >= INODE_NUM
    decreases INODE_NUM - i
  {
    if i < INODE_NUM && i in m {
      LowestIsFree(m, i + 1);
    }
  }

  ghost predicate Typed(m: Store, i: nat, typ: nat) {
    i in m && m[i].typ == typ
  }

  lemma AbstractKeepsType(m: Store, op: Op, i: nat, typ: nat)
    requires Typed(m, i, typ) && i < INODE_NUM
    ensures Typed(AbstractStep(m, op), i, typ)
  {
    LowestIsFree(m, 1);
  }

  /** The stores along a run. */
  ghost predicate Follows(ms: seq<Store>, ops: seq<Op>) {
    |ms| == |ops| + 1 && forall k :: 0 <= k < |ops| ==> ms[k + 1] == AbstractStep(ms[k], ops[k])
  }

  ghost function Stores(ds: seq<Image>): (ms: seq<Store>)
    ensures |ms| == |ds| && forall k :: 0 <= k < |ds| ==> ms[k] == StoreOf(ds[k])
  {
    seq(|ds|, k requires 0 <= k < |ds| => StoreOf(ds[k]))
  }

  lemma StoreStep(ds: seq<Image>, ops: seq<Op>, k: nat)
    requires Run(ds, ops) && k < |ops|
    ensures Stores(ds)[k + 1] == AbstractStep(Stores(ds)[k], ops[k])
  {
    RunKeepsOwnership(ds, ops, k);
    RunStep(ds, ops, k);
  }

  lemma RunFollows(ds: seq<Image>, ops: seq<Op>)
    requires Run(ds, ops)
    ensures Follows(Stores(ds), ops)
  {
    forall k | 0 <= k < |ops| ensures Stores(ds)[k + 1] == AbstractStep(Stores(ds)[k], ops[k]) {
      StoreStep(ds, ops, k);
    }
  }

  lemma {:induction false} TypeStays(ms: seq<Store>, ops: seq<Op>, j: nat, k: nat, i: nat, typ: nat)
    requires Follows(ms, ops) && j <= k < |ms| && i < INODE_NUM && Typed(ms[j], i, typ)
    ensures Typed(ms[k], i, typ)
    decreases k
  {
    if j < k {
      TypeStays(ms, ops, j, k - 1, i, typ);
      AbstractKeepsType(ms[k - 1], ops[k - 1], i, typ);
    }
  }

  lemma TypedIs(d: Image, i: nat, typ: nat)
    requires 1 <= i <= LAST_INODE
    ensures Typed(StoreOf(d), i, typ) <==> InUse(d, i) && InodeAt(d, i).typ == typ
  {
    InStore(d, i);
  }

  lemma CreatedIsTyped(d: Image, op: Op, d': Image)
    requires FsInv(d) && Next(d, op, d') && op.CreateFile?
    ensures Typed(StoreOf(d'), FirstFreeInode(d, 1), op.typ % 65536)
  {
    CreateRefines(d, op.typ, op.stack);
    LowestIsFirstFree(d);
  }

  /** A file has, through all later creations and writes, the type its creation asked for. */
  lemma TypeIsForever(ds: seq<Image>, ops: seq<Op>, j: nat, k: nat)
    requires Run(ds, ops) && j < |ops| && j < k < |ds| && ops[j].CreateFile?
    ensures
      var n := FirstFreeInode(ds[j], 1);
      1 <= n <= LAST_INODE && !InUse(ds[j], n) && InUse(ds[k], n) && InodeAt(ds[k], n).typ == ops[j].typ % 65536
  {
    var n := FirstFreeInode(ds[j], 1);
    RunKeepsOwnership(ds, ops, j);
    RunNext(ds, ops, j);
    CreatedIsTyped(ds[j], ops[j], ds[j + 1]);
    RunFollows(ds, ops);
    TypeStays(Stores(ds), ops, j + 1, k, n, ops[j].typ % 65536);
    TypedIs(ds[k], n, ops[j].typ % 65536);
  }

  /** The root, which the constructor of the inode manager creates first, stays a directory. */
  lemma RootIsDirectory(ds: seq<Image>, ops: seq<Op>, k: nat)
    requires Run(ds, ops) && |ops| > 0 && 0 < k < |ds| && ops[0].CreateFile? && ops[0].typ == T_DIR
    ensures InUse(ds[k], 1) && InodeAt(ds[k], 1).typ == T_DIR
  {
    RunStarts(ds, ops);
    InStore(ds[0], 1);
    TypeIsForever(ds, ops, 0, k);
  }

  // ---- allocation over whole runs ----

  /** No allocation bit is ever cleared. */
  ghost predicate KeepsBits(d: Image, d': Image) {
    forall p :: 0 <= p < BLOCK_NUM && Taken(d, p) ==> Taken(d', p)
  }

  lemma CreateKeepsBits(d: Image, typ: nat32, stack: Inode)
    requires WellFormed(stack)
    ensures KeepsBits(d, Create(d, typ, stack).0)
  {
    var n := FirstFreeInode(d, 1);
    if n != 0 {
      PutKeepsBits(d, n, stack.(typ := typ % 65536, size := 0));
    }
  }

  lemma WriteKeepsBits(d: Image, i: nat, buf: Bytes, size: nat32, table: seq<nat32>)
    requires FsInv(d) && 1 <= i <= LAST_INODE && |buf| == BlockCount(size) * BLOCK_SIZE && |table| == NINDIRECT
    requires Handled(d, i, size) && EnoughSpace(d, i, size)
    ensures KeepsBits(d, WriteFile(d, i, buf, size, table))
  {
    if InodeAt(d, i).typ != 0 && BlockCount(size) <= MAXFILE {
      var rs := WriteEffect(d, i, buf, size, table);
    } else {
      assert WriteFile(d, i, buf, size, table) == d;
    }
  }

  lemma StepKeepsBits(d: Image, op: Op, d': Image)
    requires FsInv(d) && Next(d, op, d')
    ensures KeepsBits(d, d')
  {
    match op {
      case CreateFile(typ, stack) => CreateKeepsBits(d, typ, stack);
      case WriteFileOp(i, buf, size, table) => WriteKeepsBits(d, i, buf, size, table);
    }
  }

  lemma {:induction false} RunKeepsBits(ds: seq<Image>, ops: seq<Op>, j: nat, k: nat)
    requires Run(ds, ops) && j <= k < |ds|
    ensures KeepsBits(ds[j], ds[k])
    decreases k
  {
    if j < k {
      var i := k - 1;
      RunKeepsBits(ds, ops, j, i);
      RunKeepsOwnership(ds, ops, i);
      RunNext(ds, ops, i);
      StepKeepsBits(ds[i], ops[i], ds[i + 1]);
    }
  }

  lemma {:induction false} AllocAvoidsTaken(d: Image, k: nat, i: nat, p: nat32)
    requires i < k && FIRST_DATA <= p < BLOCK_NUM && Taken(d, p)
    ensures AllocMany(d, k).1[i] != p
  {
    if i < k - 1 {
      AllocAvoidsTaken(d, k - 1, i, p);
    } else {
      AllocManyOnlyMarks(d, k - 1);
    }
  }

  /** A block once marked is never allocated again, whatever creations and writes come in
      between: an allocation of any size in a later state does not return it. */
  lemma RunNeverReallocates(ds: seq<Image>, ops: seq<Op>, j: nat, k: nat, p: nat32, n: nat, i: nat)
    requires Run(ds, ops) && j <= k < |ds| && FIRST_DATA <= p < BLOCK_NUM && Taken(ds[j], p) && i < n
    ensures AllocMany(ds[k], n).1[i] != p
  {
    RunKeepsBits(ds, ops, j, k);
    AllocAvoidsTaken(ds[k], n, i, p);
  }
}
