/** Unmarshalling never accepts a message that was cut short, and okdone() never accepts
    one with bytes left over. */
module CodecPrefix {
  import opened Basics
  import opened Codec

  /** As long as r is healthy, s is the same reader over more bytes. */
  predicate Ahead(r: Reader, s: Reader, q: Bytes) {
    r.ok ==> r.ind <= |r.buf| && s == At(r.buf + q, r.ind)
  }

  lemma ByteAhead(r: Reader, s: Reader, q: Bytes)
    requires Ahead(r, s, q)
    ensures
      var (v, r1) := ReadByte(r);
      var (w, s1) := ReadByte(s);
      Ahead(r1, s1, q) && (r1.ok ==> r.ok && v == w)
  {
  }

  lemma {:induction false} UnsignedAhead(r: Reader, s: Reader, q: Bytes, w: nat)
    requires Ahead(r, s, q)
    ensures
      var (x, r1) := ReadUnsigned(r, w);
      var (y, s1) := ReadUnsigned(s, w);
      Ahead(r1, s1, q) && (r1.ok ==> r.ok && x == y)
  {
    if w > 0 {
      UnsignedAhead(r, s, q, w - 1);
      ByteAhead(ReadUnsigned(r, w - 1).1, ReadUnsigned(s, w - 1).1, q);
    }
  }

  lemma StringAhead(r: Reader, s: Reader, q: Bytes)
    requires Ahead(r, s, q)
    ensures
      var (x, r1) := ReadString(r);
      var (y, s1) := ReadString(s);
      Ahead(r1, s1, q) && (r1.ok ==> r.ok && x == y)
  {
    UnsignedAhead(r, s, q, 4);
    var (n, r1) := ReadUnsigned(r, 4);
    if r1.ok && r1.ind + n <= |r1.buf| {
      assert (r1.buf + q)[r1.ind..r1.ind + n] == r1.buf[r1.ind..r1.ind + n];
    }
  }

  /** More bytes behind a message do not change what a successful read returns. */
  lemma {:induction false} DecodeAhead(t: Type, r: Reader, s: Reader, q: Bytes)
    requires Ahead(r, s, q)
    ensures Ahead(Decode(t, r).1, Decode(t, s).1, q)
    ensures Decode(t, r).1.ok ==> r.ok && Decode(t, r).0 == Decode(t, s).0
    decreases t, 0
  {
    match t {
      case TBool => ByteAhead(r, s, q);
      case TInt(w, signed) => UnsignedAhead(r, s, q, w);
      case TString => StringAhead(r, s, q);
      case TPair(k, e) =>
        DecodeAhead(k, r, s, q);
        DecodeAhead(e, Decode(k, r).1, Decode(k, s).1, q);
      case TVec(e) => ListAhead(t, e, r, s, q);
      case TMap(entry) => ListAhead(t, entry, r, s, q);
    }
  }

  lemma {:induction false} ListAhead(t: Type, e: Type, r: Reader, s: Reader, q: Bytes)
    requires Ahead(r, s, q) && (t == TVec(e) || t == TMap(e))
    ensures Ahead(Decode(t, r).1, Decode(t, s).1, q)
    ensures Decode(t, r).1.ok ==> r.ok && Decode(t, r).0 == Decode(t, s).0
    decreases e, ReadUnsigned(r, 4).0 + 2
  {
    UnsignedAhead(r, s, q, 4);
    var (n, r1) := ReadUnsigned(r, 4);
    var (m, s1) := ReadUnsigned(s, 4);
    if r1.ok {
      ItemsAhead(e, n, r1, s1, q);
    } else {
      ItemsFailed(e, n, r1);
    }
  }

  lemma {:induction false} ItemsAhead(e: Type, n: nat, r: Reader, s: Reader, q: Bytes)
    requires Ahead(r, s, q)
    ensures Ahead(DecodeItems(e, n, r).1, DecodeItems(e, n, s).1, q)
    ensures DecodeItems(e, n, r).1.ok ==> r.ok && DecodeItems(e, n, r).0 == DecodeItems(e, n, s).0
    decreases e, n + 1
  {
    if n > 0 {
      ItemsAhead(e, n - 1, r, s, q);
      DecodeAhead(e, DecodeItems(e, n - 1, r).1, DecodeItems(e, n - 1, s).1, q);
    }
  }

  /** Once a read has failed the reader stays failed. */
  lemma {:induction false} ItemsFailed(e: Type, n: nat, r: Reader)
    requires !r.ok
    ensures !DecodeItems(e, n, r).1.ok
    decreases e, n + 1
  {
    if n > 0 {
      ItemsFailed(e, n - 1, r);
      var r1 := DecodeItems(e, n - 1, r).1;
      DecodeAhead(e, r1, r1, []);
    }
  }

  lemma {:induction false} ArgsAhead(ts: seq<Type>, r: Reader, s: Reader, q: Bytes)
    requires Ahead(r, s, q)
    ensures Ahead(DecodeArgs(ts, r).1, DecodeArgs(ts, s).1, q)
    ensures DecodeArgs(ts, r).1.ok ==> r.ok && DecodeArgs(ts, r).0 == DecodeArgs(ts, s).0
  {
    if ts != [] {
      var n := |ts| - 1;
      ArgsAhead(ts[..n], r, s, q);
      DecodeAhead(ts[n], DecodeArgs(ts[..n], r).1, DecodeArgs(ts[..n], s).1, q);
    }
  }

  lemma CutShortIsRejected(header: Bytes, vs: seq<Value>, ts: seq<Type>, b: Bytes)
    requires AllTyped(vs, ts) && b < EncodeArgs(vs, ts)
    ensures !DecodeArgs(ts, At(header + b, |header|)).1.ok
  {
    var enc := EncodeArgs(vs, ts);
    var q := enc[|b|..];
    assert header + b + q == header + enc;
    ArgsAhead(ts, At(header + b, |header|), At(header + enc, |header|), q);
    assert Holds(header + enc, |header|, enc);
    ArgsRoundTrip(vs, ts, header + enc, |header|);
  }

  /** Of all shortened or lengthened copies of an argument list, okdone() accepts only the
      list itself. */
  lemma AcceptsExactly(header: Bytes, vs: seq<Value>, ts: seq<Type>, b: Bytes)
    requires AllTyped(vs, ts) && (b <= EncodeArgs(vs, ts) || EncodeArgs(vs, ts) <= b)
    ensures OkDone(DecodeArgs(ts, At(header + b, |header|)).1) <==> b == EncodeArgs(vs, ts)
  {
    var enc := EncodeArgs(vs, ts);
    if b < enc {
      CutShortIsRejected(header, vs, ts, b);
    } else {
      assert Holds(header + b, |header|, enc);
      ArgsRoundTrip(vs, ts, header + b, |header|);
    }
  }
}
