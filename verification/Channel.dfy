/** The two halves of a connection as values: what writepdu, readpdu and the callbacks make
    of the progress counters, for every possible outcome of the system calls. */
module Channel {
  import opened Basics
  import opened Wire

  const MAX_PDU: nat := 10 * 0x10_0000
  const MIN_PDU: nat := 24

  /** `wpdu_` and `dead_`: the buffer being sent, and how much of it is written. */
  datatype Out = Out(dead: bool, buf: Option<Bytes>, solong: int, sz: nat)

  /** What a write system call did: n bytes taken, nothing for now, or an error. */
  datatype WriteResult = Wrote(n: nat) | WouldBlock | Failed

  predicate Writable(o: Out, w: WriteResult) {
    && o.buf.Some? && 0 <= o.solong <= o.sz == |o.buf.value| && 4 <= o.sz < WORD
    && (w.Wrote? ==> w.n <= o.sz - o.solong)
  }

  /** writepdu: the new counters, the bytes that went out, and whether to go on. */
  function WritePdu(o: Out, w: WriteResult): (Out, Bytes, bool)
    requires Writable(o, w)
  {
    if o.solong == o.sz then (o, [], true)
    else
      var pdu := if o.solong == 0 then SetLength(o.buf.value) else o.buf.value;
      match w
      case Failed => (o.(buf := Some(pdu), solong := -1, sz := 0), [], false)
      case WouldBlock => (o.(buf := Some(pdu)), [], true)
      case Wrote(n) => (o.(buf := Some(pdu), solong := o.solong + n), pdu[o.solong..o.solong + n], true)
  }

  /** write_cb on a live connection. */
  function WriteCb(o: Out, w: WriteResult): (Out, Bytes)
    requires o.sz != 0 ==> Writable(o, w)
  {
    if o.sz == 0 then (o, [])
    else
      var (o1, b, ok) := WritePdu(o, w);
      (if ok then o1 else o1.(dead := true), b)
  }

  /** The sender gives up its turn. */
  function Release(o: Out): Out {
    o.(buf := None, solong := 0, sz := 0)
  }

  /** writepdu fails exactly when there was something to write and the write failed for good;
      otherwise it has written what the system took, and nothing if that was nothing. */
  lemma WritePduFailsIff(o: Out, w: WriteResult)
    requires Writable(o, w)
    ensures
      var (o', b, ok) := WritePdu(o, w);
      && (!ok <==> o.solong < o.sz && w.Failed?)
      && o'.dead == o.dead && |b| == (if o.solong < o.sz && w.Wrote? then w.n else 0)
      && (ok ==> o'.solong == o.solong + |b| && o'.sz == o.sz)
      && (!ok ==> o'.solong == -1 && o'.sz == 0)
  {
  }

  /** write_cb kills the connection exactly then. */
  lemma WriteCbDiesIff(o: Out, w: WriteResult)
    requires !o.dead && (o.sz != 0 ==> Writable(o, w))
    ensures WriteCb(o, w).0.dead <==> o.sz != 0 && o.solong < o.sz && w.Failed?
  {
  }

  // ---- receiving ----

  /** `rpdu_` and `dead_`: the first `solong` bytes of the message being received. */
  datatype In = In(dead: bool, buf: Option<Bytes>, sz: nat, solong: nat)

  /** What a read system call did.  At end of file, too, readpdu looks at errno, which may
      still hold EAGAIN. */
  datatype ReadResult = Got(b: Bytes) | Nothing(again: bool)

  function BytesOf(r: ReadResult): Bytes {
    if r.Got? then r.b else []
  }

  /** Step one of readpdu: the length, which must arrive in one piece. */
  function ReadLength(i: In, r: ReadResult): (In, bool)
    requires r.Got? ==> 1 <= |r.b| <= 4
  {
    if r.Nothing? || |r.b| != 4 || Unpack32(r.b) > MAX_PDU then (i, false)
    else (i.(buf := Some(r.b), sz := Unpack32(r.b), solong := 4), true)
  }

  /** Step two: some of the body. */
  function ReadBody(i: In, r: ReadResult): (In, bool)
    requires i.buf.Some?
  {
    match r
    case Got(b) => (i.(buf := Some(i.buf.value + b), solong := i.solong + |b|), true)
    case Nothing(again) => if again then (i, true) else (i.(buf := None, sz := 0, solong := 0), false)
  }

  /** Reads of at most the requested size. */
  predicate Sizes(i: In, r1: ReadResult, r2: ReadResult) {
    && (r1.Got? ==> 1 <= |r1.b| <= 4)
    && (r2.Got? ==> 1 <= |r2.b| <= (if i.sz == 0 then ReadLength(i, r1).0.sz else i.sz) - (if i.sz == 0 then 4 else i.solong))
  }

  predicate InOk(i: In) {
    && (i.buf.None? ==> i.sz == 0 && i.solong == 0)
    && (i.buf.Some? ==> 4 <= i.solong == |i.buf.value| <= i.sz && i.sz > 4)
  }

  /** readpdu: the new counters, the bytes consumed, and whether the connection lives. */
  function ReadPdu(i: In, r1: ReadResult, r2: ReadResult): (In, Bytes, bool)
    requires InOk(i) && Sizes(i, r1, r2)
  {
    if i.sz == 0 then
      var (i1, ok) := ReadLength(i, r1);
      if !ok then (i1, BytesOf(r1), false)
      else
        var (i2, ok2) := ReadBody(i1, r2);
        (i2, BytesOf(r1) + BytesOf(r2), ok2)
    else
      var (i2, ok2) := ReadBody(i, r2);
      (i2, BytesOf(r2), ok2)
  }

  /** The length read fails: nothing came, not all four bytes at once, or too large a length. */
  predicate LengthFails(r: ReadResult) {
    match r
    case Nothing(_) => true
    case Got(b) => |b| != 4 || Unpack32(b) > 10 * 1024 * 1024
  }

  /** The body read fails: nothing came, and not because nothing was there yet. */
  predicate BodyFails(r: ReadResult) {
    r == Nothing(false)
  }

  /** What makes readpdu give the connection up. */
  predicate ReadFails(i: In, r1: ReadResult, r2: ReadResult) {
    (i.sz == 0 && LengthFails(r1)) || BodyFails(r2)
  }

  /** readpdu fails on exactly these outcomes, and then holds no message; in every other case the
      receiver lives and holds all it held before and all it has taken now. */
  lemma ReadPduFailsIff(i: In, r1: ReadResult, r2: ReadResult)
    requires InOk(i) && Sizes(i, r1, r2)
    ensures
      var (i', b, ok) := ReadPdu(i, r1, r2);
      && (!ok <==> ReadFails(i, r1, r2)) && i'.dead == i.dead
      && (!ok ==> i'.buf.None?)
      && (ok ==> i'.buf.Some? && i'.buf.value == Held(i) + b)
      && (ok ==> i'.sz == if i.sz == 0 then Unpack32(r1.b) else i.sz)
  {
    if i.sz == 0 {
      FreshRead(i, r1, r2);
    } else {
      BodyRead(i, r2);
    }
  }

  /** What the receiver holds of the next message. */
  function Held(i: In): Bytes {
    if i.buf.Some? then i.buf.value else []
  }

  lemma BodyRead(i: In, r: ReadResult)
    requires i.buf.Some?
    ensures
      var (i', ok) := ReadBody(i, r);
      && (!ok <==> BodyFails(r)) && i'.dead == i.dead && (!ok ==> i'.buf.None?)
      && (ok ==> i'.buf.Some? && i'.buf.value == i.buf.value + BytesOf(r) && i'.sz == i.sz)
  {
    assert i.buf.value + [] == i.buf.value;
  }

  lemma FreshRead(i: In, r1: ReadResult, r2: ReadResult)
    requires InOk(i) && Sizes(i, r1, r2) && i.sz == 0
    ensures
      var (i', b, ok) := ReadPdu(i, r1, r2);
      && (!ok <==> LengthFails(r1) || BodyFails(r2)) && i'.dead == i.dead && (!ok ==> i'.buf.None?)
      && (ok ==> i'.buf.Some? && i'.buf.value == b && i'.sz == Unpack32(r1.b))
  {
    if !LengthFails(r1) {
      BodyRead(ReadLength(i, r1).0, r2);
    }
  }

  /** read_cb: the new counters, the bytes consumed, and the message handed over, if the
      manager took one.  A message it refused is offered again later. */
  function ReadCb(i: In, r1: ReadResult, r2: ReadResult, accepts: bool): (In, Bytes, Option<Bytes>)
    requires InOk(i) && Sizes(i, r1, r2)
  {
    if i.dead then (i, [], None)
    else
      var (i1, b, ok) := if i.buf.None? || i.solong < i.sz then ReadPdu(i, r1, r2) else (i, [], true);
      var i2 := if ok then i1 else i1.(dead := true);
      if i2.buf.Some? && i2.sz == i2.solong && accepts
      then (i2.(buf := None, sz := 0, solong := 0), b, Some(i2.buf.value))
      else (i2, b, None)
  }

  /** read_cb reads whenever its message is not complete, dies exactly when that read fails, and
      hands its message over exactly when it is complete and the manager takes it. */
  lemma ReadCbOutcome(i: In, r1: ReadResult, r2: ReadResult, accepts: bool)
    requires InOk(i) && Sizes(i, r1, r2) && !i.dead
    ensures
      var reading := i.buf.None? || i.solong < i.sz;
      var (i1, b1, ok) := if reading then ReadPdu(i, r1, r2) else (i, [], true);
      var (i', b, got) := ReadCb(i, r1, r2, accepts);
      && b == b1 && (i'.dead <==> reading && ReadFails(i, r1, r2))
      && (got.Some? <==> i1.buf.Some? && i1.solong == i1.sz && accepts)
      && (got.Some? ==> got == i1.buf && i'.buf.None? && i'.sz == 0)
      && (got.None? ==> i'.buf == i1.buf && i'.sz == i1.sz && i'.solong == i1.solong)
  {
    if i.buf.None? || i.solong < i.sz {
      ReadPduFailsIff(i, r1, r2);
    }
  }

  /** A dead connection's read_cb does nothing. */
  lemma DeadReadCb(i: In, r1: ReadResult, r2: ReadResult, accepts: bool)
    requires InOk(i) && Sizes(i, r1, r2) && i.dead
    ensures ReadCb(i, r1, r2, accepts) == (i, [], None)
  {
  }
}
