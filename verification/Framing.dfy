/** One direction of a connection as a state machine: any number of sending threads, the
    poll thread's callbacks, a byte stream that delivers in pieces of any size, and a
    receiver whose manager may refuse messages.  The byte stream refines a message queue. */
module Framing {
  import opened Basics
  import opened Wire
  import opened Channel

  /** A call of `send`; k is the place of its message among those put on the wire. */
  datatype Call =
    | Waiting(m: Bytes)
    | Active(m: Bytes, k: nat)
    | Removing(m: Bytes, k: nat)
    | Returned(m: Bytes, ok: bool, k: nat)
    | Refused(m: Bytes)

  datatype State = State(
    out: Out, owner: nat, calls: map<nat, Call>,
    put: seq<Bytes>, wire: Bytes, pos: nat,
    inn: In, accepted: seq<Bytes>)

  datatype Action =
    | Enter(t: nat, m: Bytes)
    | Refuse(t: nat)
    | Start(t: nat, w: WriteResult)
    | Callback(w: WriteResult)
    | Finish(t: nat)
    | Removed(t: nat)
    | SenderDies
    | Read(r1: ReadResult, r2: ReadResult, accepts: bool)
    | ReaderDies

  function Init(): State {
    State(Out(false, None, 0, 0), 0, map[], [], [], 0, In(false, None, 0, 0), [])
  }

  predicate SendSize(m: Bytes) {
    MIN_PDU <= |m| < 0x8000_0000
  }

  /** The counters as `send` sets them before its first write. */
  function Loaded(o: Out, m: Bytes): Out {
    o.(buf := Some(m), solong := 0, sz := |m|)
  }

  predicate Is(s: State, t: nat, running: bool) {
    t in s.calls && if running then s.calls[t].Active? else s.calls[t].Removing?
  }

  predicate Enabled(s: State, a: Action) {
    match a
    case Enter(t, m) => t !in s.calls && SendSize(m)
    case Refuse(t) => t in s.calls && s.calls[t].Waiting? && s.out.dead
    case Start(t, w) =>
      && t in s.calls && s.calls[t].Waiting? && !s.out.dead && s.out.buf.None?
      && Writable(Loaded(s.out, s.calls[t].m), w)
    case Callback(w) => !s.out.dead && (s.out.sz != 0 ==> Writable(s.out, w))
    case Finish(t) => Is(s, t, true) && (s.out.dead || s.out.solong < 0 || s.out.solong >= s.out.sz)
    case Removed(t) => Is(s, t, false)
    case SenderDies => true
    case Read(r1, r2, accepts) =>
      && InOk(s.inn) && Sizes(s.inn, r1, r2) && s.pos <= |s.wire|
      && ReadCb(s.inn, r1, r2, accepts).1 <= s.wire[s.pos..]
    case ReaderDies => true
  }

  function Started(s: State, t: nat, w: WriteResult): State
    requires Enabled(s, Start(t, w)) && SendSize(s.calls[t].m)
  {
    var m, k := s.calls[t].m, |s.put|;
    var (o, b, ok) := WritePdu(Loaded(s.out, m), w);
    var s1 := s.(owner := t, put := s.put + [SetLength(m)], wire := s.wire + b);
    if !ok then s1.(out := o.(dead := true), calls := s.calls[t := Removing(m, k)])
    else if o.solong == o.sz then s1.(out := Release(o), calls := s.calls[t := Returned(m, true, k)])
    else s1.(out := o, calls := s.calls[t := Active(m, k)])
  }

  function DoRead(s: State, r1: ReadResult, r2: ReadResult, accepts: bool): State
    requires Enabled(s, Read(r1, r2, accepts))
  {
    var (i, b, got) := ReadCb(s.inn, r1, r2, accepts);
    s.(inn := i, pos := s.pos + |b|, accepted := if got.Some? then s.accepted + [got.value] else s.accepted)
  }

  function Step(s: State, a: Action): State
    requires Enabled(s, a) && (a.Start? ==> SendSize(s.calls[a.t].m))
  {
    match a
    case Enter(t, m) => s.(calls := s.calls[t := Waiting(m)])
    case Refuse(t) => s.(calls := s.calls[t := Refused(s.calls[t].m)])
    case Start(t, w) => Started(s, t, w)
    case Callback(w) => var (o, b) := WriteCb(s.out, w); s.(out := o, wire := s.wire + b)
    case Finish(t) =>
      var c := s.calls[t];
      s.(out := Release(s.out), calls := s.calls[t := Returned(c.m, !s.out.dead && s.out.solong == s.out.sz, c.k)])
    case Removed(t) =>
      var c := s.calls[t];
      s.(out := Release(s.out), calls := s.calls[t := Returned(c.m, false, c.k)])
    case SenderDies => s.(out := s.out.(dead := true))
    case Read(r1, r2, accepts) => DoRead(s, r1, r2, accepts)
    case ReaderDies => s.(inn := s.inn.(dead := true))
  }

  ghost predicate Next(s: State, a: Action, s': State) {
    Enabled(s, a) && (a.Start? ==> SendSize(s.calls[a.t].m)) && s' == Step(s, a)
  }

  ghost predicate Run(ss: seq<State>, acts: seq<Action>) {
    && |ss| == |acts| + 1 && ss[0] == Init()
    && forall i {:trigger Next(ss[i], acts[i], ss[i + 1])} :: 0 <= i < |acts| ==> Next(ss[i], acts[i], ss[i + 1])
  }

  // ---- flattened message lists ----

  function Flat(ps: seq<Bytes>): Bytes {
    if ps == [] then [] else Flat(ps[..|ps| - 1]) + ps[|ps| - 1]
  }

  lemma FlatAppend(ps: seq<Bytes>, p: Bytes)
    ensures Flat(ps + [p]) == Flat(ps) + p
  {
    assert (ps + [p])[..|ps|] == ps;
  }

  lemma {:induction false} FlatPrefix(ps: seq<Bytes>, k: nat)
    requires k <= |ps|
    ensures Flat(ps[..k]) <= Flat(ps)
  {
    if k < |ps| {
      FlatPrefix(ps[..|ps| - 1], k);
      assert ps[..|ps| - 1][..k] == ps[..k];
    } else {
      assert ps[..k] == ps;
    }
  }

  lemma FlatNext(ps: seq<Bytes>, k: nat)
    requires k < |ps|
    ensures Flat(ps[..k + 1]) == Flat(ps[..k]) + ps[k]
  {
    var q := ps[..k + 1];
    assert q[..k] == ps[..k] && q[k] == ps[k];
  }

  /** Message k stands in the stream right behind the first k. */
  lemma FlatAt(ps: seq<Bytes>, k: nat)
    requires k < |ps|
    ensures Flat(ps[..k]) + ps[k] <= Flat(ps)
  {
    FlatPrefix(ps, k + 1);
    FlatNext(ps, k);
  }

  /** Length of the first k messages together. */
  function UpTo(ps: seq<Bytes>, k: nat): nat
    requires k <= |ps|
  {
    if k == 0 then 0 else UpTo(ps, k - 1) + |ps[k - 1]|
  }

  lemma {:induction false} UpToIsFlat(ps: seq<Bytes>, k: nat)
    requires k <= |ps|
    ensures UpTo(ps, k) == |Flat(ps[..k])|
  {
    if k > 0 {
      UpToIsFlat(ps, k - 1);
      FlatNext(ps, k - 1);
    }
  }

  lemma {:induction false} UpToGrows(ps: seq<Bytes>, qs: seq<Bytes>, k: nat)
    requires k <= |ps| && ps <= qs
    ensures UpTo(qs, k) == UpTo(ps, k)
  {
    if k > 0 {
      UpToGrows(ps, qs, k - 1);
    }
  }

  lemma UpToAll(ps: seq<Bytes>)
    ensures UpTo(ps, |ps|) == |Flat(ps)|
  {
    UpToIsFlat(ps, |ps|);
    assert ps[..|ps|] == ps;
  }

  // ---- invariants ----

  predicate Framed(p: Bytes) {
    SendSize(p) && Unpack32(p[..4]) == |p|
  }

  /** The stream holds the messages put on it, the last one perhaps in part. */
  ghost predicate WriterInv(out: Out, put: seq<Bytes>, wire: Bytes) {
    && (forall p :: p in put ==> Framed(p))
    && wire <= Flat(put)
    && (!out.dead && out.buf.None? ==> wire == Flat(put) && out.sz == 0)
    && (!out.dead && out.buf.Some? ==>
         && |put| > 0 && out.sz == |out.buf.value| == |put[|put| - 1]| && 0 <= out.solong <= out.sz
         && SendSize(out.buf.value) && SetLength(out.buf.value) == put[|put| - 1]
         && (out.solong > 0 ==> out.buf.value == put[|put| - 1])
         && wire == Flat(put[..|put| - 1]) + put[|put| - 1][..out.solong])
  }

  /** What the receiver took from the stream is the accepted messages, then the part of
      the next one it holds. */
  ghost predicate ReaderInv(put: seq<Bytes>, wire: Bytes, pos: nat, inn: In, accepted: seq<Bytes>) {
    && accepted <= put && pos <= |wire| && InOk(inn)
    && (!inn.dead ==>
         && wire[..pos] == Flat(accepted) + (if inn.buf.Some? then inn.buf.value else [])
         && (inn.buf.Some? ==> |accepted| < |put| && inn.sz == |put[|accepted|]|))
  }

  predicate HasIndex(c: Call) {
    c.Active? || c.Removing? || c.Returned?
  }

  ghost predicate CallOk(s: State, t: nat, c: Call) {
    && SendSize(c.m)
    && (HasIndex(c) ==> c.k < |s.put| && s.put[c.k] == SetLength(c.m))
    && (c.Active? || c.Removing? ==> s.out.buf.Some? && s.owner == t && c.k == |s.put| - 1)
    && (c.Removing? ==> s.out.dead)
    && (c.Returned? && c.ok ==> UpTo(s.put, c.k + 1) <= |s.wire|)
  }

  ghost predicate CallsInv(s: State) {
    && (forall t :: t in s.calls ==> CallOk(s, t, s.calls[t]))
    && (forall t, u :: t in s.calls && u in s.calls && t != u && HasIndex(s.calls[t]) && HasIndex(s.calls[u])
          ==> s.calls[t].k != s.calls[u].k)
  }

  ghost predicate Inv(s: State) {
    && WriterInv(s.out, s.put, s.wire)
    && ReaderInv(s.put, s.wire, s.pos, s.inn, s.accepted)
    && CallsInv(s)
  }

  // ---- the writer ----

  lemma SetLengthFramed(m: Bytes)
    requires SendSize(m)
    ensures Framed(SetLength(m)) && SetLength(SetLength(m)) == SetLength(m)
  {
    LengthInFront(m);
  }

  /** Writing some more of the last message. */
  lemma WritePduKeeps(o: Out, put: seq<Bytes>, wire: Bytes, w: WriteResult)
    requires WriterInv(o, put, wire) && !o.dead && o.buf.Some? && Writable(o, w)
    ensures
      var (o1, b, ok) := WritePdu(o, w);
      && (ok ==> WriterInv(o1, put, wire + b) && !o1.dead && o1.buf.Some? && o1.solong >= 0)
      && (!ok ==> WriterInv(o1.(dead := true), put, wire + b))
  {
    SetLengthFramed(o.buf.value);
    if o.solong < o.sz && w.Wrote? {
      MoreOfLast(put, wire, o.solong, w.n);
    }
  }

  lemma MoreOfLast(put: seq<Bytes>, wire: Bytes, j: nat, n: nat)
    requires |put| > 0 && j + n <= |put[|put| - 1]| && wire == Flat(put[..|put| - 1]) + put[|put| - 1][..j]
    ensures
      var wire' := wire + put[|put| - 1][j..j + n];
      wire' == Flat(put[..|put| - 1]) + put[|put| - 1][..j + n] && wire' <= Flat(put)
  {
    MoreBytes(Flat(put[..|put| - 1]), put[|put| - 1], wire, j, n);
  }

  lemma MoreBytes(base: Bytes, last: Bytes, wire: Bytes, j: nat, n: nat)
    requires j + n <= |last| && wire == base + last[..j]
    ensures wire + last[j..j + n] == base + last[..j + n] && base + last[..j + n] <= base + last
  {
    assert last[..j] + last[j..j + n] == last[..j + n];
    assert base + last[..j] + last[j..j + n] == base + (last[..j] + last[j..j + n]);
    var r := base + last[..j + n];
    assert (base + last)[..|r|] == r;
  }

  lemma StartedWriter(s: State, t: nat, w: WriteResult)
    requires WriterInv(s.out, s.put, s.wire) && Enabled(s, Start(t, w)) && SendSize(s.calls[t].m)
    ensures
      var s' := Started(s, t, w);
      && WriterInv(s'.out, s'.put, s'.wire) && s.put <= s'.put && s.wire <= s'.wire
      && (s'.calls[t].Returned? ==> s'.wire == Flat(s'.put))
  {
    var m := s.calls[t].m;
    var put' := s.put + [SetLength(m)];
    SetLengthFramed(m);
    FlatAppend(s.put, SetLength(m));
    assert put'[..|put'| - 1] == s.put;
    WritePduKeeps(Loaded(s.out, m), put', s.wire, w);
    var (o, b, ok) := WritePdu(Loaded(s.out, m), w);
    if ok && o.solong == o.sz {
      CompleteIsFlat(o, put', s.wire + b);
    }
  }

  lemma CompleteIsFlat(o: Out, put: seq<Bytes>, wire: Bytes)
    requires WriterInv(o, put, wire) && !o.dead && o.buf.Some? && o.solong == o.sz
    ensures wire == Flat(put)
  {
    var last := put[|put| - 1];
    assert last[..o.solong] == last;
    assert put == put[..|put| - 1] + [last];
  }

  // ---- the reader ----

  /** More messages and more bytes do not disturb the receiver. */
  lemma ReaderFrame(put: seq<Bytes>, wire: Bytes, pos: nat, inn: In, accepted: seq<Bytes>, put': seq<Bytes>, wire': Bytes)
    requires ReaderInv(put, wire, pos, inn, accepted) && put <= put' && wire <= wire'
    ensures ReaderInv(put', wire', pos, inn, accepted)
  {
    assert wire'[..pos] == wire[..pos];
  }

  /** Bytes of the stream behind the accepted messages belong to the next message. */
  lemma NextMessage(put: seq<Bytes>, wire: Bytes, accepted: seq<Bytes>, n: nat)
    requires (forall p :: p in put ==> Framed(p)) && wire <= Flat(put) && accepted <= put
    requires |Flat(accepted)| + n <= |wire|
    ensures n > 0 ==> |accepted| < |put|
    ensures |accepted| < |put| && n <= |put[|accepted|]| ==>
              wire[|Flat(accepted)|..|Flat(accepted)| + n] == put[|accepted|][..n]
  {
    var a := |accepted|;
    assert accepted == put[..a];
    if a < |put| {
      FlatAt(put, a);
      var base, f := Flat(accepted), Flat(put);
      if n <= |put[a]| {
        assert (base + put[a])[|base|..|base| + n] == put[a][..n];
        assert f[|base|..|base| + n] == (base + put[a])[|base|..|base| + n];
        assert wire[|base|..|base| + n] == f[|base|..|base| + n];
      }
    } else {
      assert accepted == put;
    }
  }

  /** The bytes consumed come right behind those consumed before. */
  lemma Consumed(wire: Bytes, pos: nat, b: Bytes, held: Bytes, base: Bytes)
    requires pos <= |wire| && b <= wire[pos..] && wire[..pos] == base + held
    ensures pos + |b| <= |wire| && wire[..pos + |b|] == base + (held + b)
  {
    assert wire[..pos + |b|] == wire[..pos] + wire[pos..pos + |b|];
    assert wire[pos..][..|b|] == wire[pos..pos + |b|];
    assert base + held + b == base + (held + b);
  }

  /** Reading the length finds the length of the next message. */
  lemma LengthRead(put: seq<Bytes>, wire: Bytes, pos: nat, inn: In, accepted: seq<Bytes>, b: Bytes)
    requires ReaderInv(put, wire, pos, inn, accepted) && !inn.dead && inn.buf.None?
    requires (forall p :: p in put ==> Framed(p)) && wire <= Flat(put)
    requires |b| == 4 && b <= wire[pos..]
    ensures |accepted| < |put| && Unpack32(b) == |put[|accepted|]| && pos + 4 <= |wire|
    ensures wire[..pos + 4] == Flat(accepted) + b
  {
    Consumed(wire, pos, b, [], Flat(accepted));
    assert Flat(accepted) + ([] + b) == Flat(accepted) + b;
    NextMessage(put, wire, accepted, 4);
    var p := put[|accepted|];
    assert p in put;
    assert wire[pos..pos + 4] == b;
  }

  /** readpdu keeps the receiver in step with the stream. */
  lemma ReadPduKeeps(put: seq<Bytes>, wire: Bytes, pos: nat, inn: In, accepted: seq<Bytes>, r1: ReadResult, r2: ReadResult)
    requires ReaderInv(put, wire, pos, inn, accepted) && !inn.dead && Sizes(inn, r1, r2)
    requires (forall p :: p in put ==> Framed(p)) && wire <= Flat(put)
    requires ReadPdu(inn, r1, r2).1 <= wire[pos..]
    ensures
      var (i, b, ok) := ReadPdu(inn, r1, r2);
      && pos + |b| <= |wire| && (ok ==> !i.dead && ReaderInv(put, wire, pos + |b|, i, accepted))
      && (!ok ==> InOk(i) && i.buf.None?)
  {
    if inn.sz == 0 {
      if r1.Got? && |r1.b| == 4 && Unpack32(r1.b) <= MAX_PDU {
        var (i1, ok) := ReadLength(inn, r1);
        assert r1.b <= wire[pos..] by {
          assert r1.b <= ReadPdu(inn, r1, r2).1;
        }
        LengthRead(put, wire, pos, inn, accepted, r1.b);
        assert put[|accepted|] in put;
        assert ReaderInv(put, wire, pos + 4, i1, accepted);
        assert BytesOf(r2) <= wire[pos + 4..] by {
          PrefixTail(wire, pos, r1.b, BytesOf(r2));
        }
        BodyKeeps(put, wire, pos + 4, i1, accepted, r2);
      }
    } else {
      BodyKeeps(put, wire, pos, inn, accepted, r2);
    }
  }

  lemma PrefixTail(wire: Bytes, pos: nat, a: Bytes, b: Bytes)
    requires pos <= |wire| && a + b <= wire[pos..]
    ensures b <= wire[pos + |a|..]
  {
    assert wire[pos..][|a|..] == wire[pos + |a|..];
    assert (a + b)[|a|..] == b;
  }

  lemma BodyKeeps(put: seq<Bytes>, wire: Bytes, pos: nat, inn: In, accepted: seq<Bytes>, r: ReadResult)
    requires ReaderInv(put, wire, pos, inn, accepted) && !inn.dead && inn.buf.Some?
    requires r.Got? ==> |r.b| <= inn.sz - inn.solong
    requires BytesOf(r) <= wire[pos..]
    ensures
      var (i, ok) := ReadBody(inn, r);
      pos + |BytesOf(r)| <= |wire| && (ok ==> !i.dead && ReaderInv(put, wire, pos + |BytesOf(r)|, i, accepted))
  {
    Consumed(wire, pos, BytesOf(r), inn.buf.value, Flat(accepted));
  }

  lemma HeldIsNext(put: seq<Bytes>, wire: Bytes, pos: nat, accepted: seq<Bytes>, held: Bytes)
    requires (forall p :: p in put ==> Framed(p)) && wire <= Flat(put) && accepted <= put && |accepted| < |put|
    requires pos <= |wire| && wire[..pos] == Flat(accepted) + held && |held| == |put[|accepted|]|
    ensures held == put[|accepted|]
  {
    var base, p, n := Flat(accepted), put[|accepted|], |held|;
    NextMessage(put, wire, accepted, n);
    assert wire[..pos][|base|..] == held;
    assert wire[|base|..|base| + n] == wire[..pos][|base|..];
    assert p[..n] == p;
  }

  lemma PrefixGrows<T>(a: seq<T>, s: seq<T>)
    requires a <= s && |a| < |s|
    ensures a + [s[|a|]] <= s
  {
    assert s[..|a| + 1] == a + [s[|a|]];
  }

  /** A complete message in the buffer is the next one of the queue. */
  lemma Delivered(put: seq<Bytes>, wire: Bytes, pos: nat, inn: In, accepted: seq<Bytes>)
    requires ReaderInv(put, wire, pos, inn, accepted) && !inn.dead && inn.buf.Some? && inn.sz == inn.solong
    requires (forall p :: p in put ==> Framed(p)) && wire <= Flat(put)
    ensures |accepted| < |put| && inn.buf.value == put[|accepted|]
    ensures ReaderInv(put, wire, pos, inn.(buf := None, sz := 0, solong := 0), accepted + [inn.buf.value])
  {
    HeldIsNext(put, wire, pos, accepted, inn.buf.value);
    PrefixGrows(accepted, put);
    FlatAppend(accepted, inn.buf.value);
  }

  /** The end of read_cb, after the reading. */
  lemma HandedOver(put: seq<Bytes>, wire: Bytes, pos: nat, i: In, accepted: seq<Bytes>, ok: bool, accepts: bool)
    requires (forall p :: p in put ==> Framed(p)) && wire <= Flat(put)
    requires ok ==> !i.dead && ReaderInv(put, wire, pos, i, accepted)
    requires !ok ==> accepted <= put && pos <= |wire| && InOk(i) && i.buf.None?
    ensures
      var i2 := if ok then i else i.(dead := true);
      if i2.buf.Some? && i2.sz == i2.solong && accepts
      then ReaderInv(put, wire, pos, i2.(buf := None, sz := 0, solong := 0), accepted + [i2.buf.value])
      else ReaderInv(put, wire, pos, i2, accepted)
  {
    if ok && i.buf.Some? && i.sz == i.solong {
      Delivered(put, wire, pos, i, accepted);
    }
  }

  lemma ReadCbKeeps(put: seq<Bytes>, wire: Bytes, pos: nat, i: In, accepted: seq<Bytes>, r1: ReadResult, r2: ReadResult, accepts: bool)
    requires (forall p :: p in put ==> Framed(p)) && wire <= Flat(put)
    requires ReaderInv(put, wire, pos, i, accepted) && Sizes(i, r1, r2)
    requires ReadCb(i, r1, r2, accepts).1 <= wire[pos..]
    ensures
      var (i', b, got) := ReadCb(i, r1, r2, accepts);
      ReaderInv(put, wire, pos + |b|, i', if got.Some? then accepted + [got.value] else accepted)
  {
    if !i.dead {
      if i.buf.None? || i.solong < i.sz {
        var (i1, b, ok) := ReadPdu(i, r1, r2);
        assert ReadCb(i, r1, r2, accepts).1 == b;
        ReadPduKeeps(put, wire, pos, i, accepted, r1, r2);
        HandedOver(put, wire, pos + |b|, i1, accepted, ok, accepts);
      } else {
        HandedOver(put, wire, pos, i, accepted, true, accepts);
      }
    }
  }

  lemma ReadKeeps(s: State, r1: ReadResult, r2: ReadResult, accepts: bool)
    requires WriterInv(s.out, s.put, s.wire) && ReaderInv(s.put, s.wire, s.pos, s.inn, s.accepted)
    requires Enabled(s, Read(r1, r2, accepts))
    ensures
      var s' := DoRead(s, r1, r2, accepts);
      ReaderInv(s'.put, s'.wire, s'.pos, s'.inn, s'.accepted)
  {
    ReadCbKeeps(s.put, s.wire, s.pos, s.inn, s.accepted, r1, r2, accepts);
  }
}
