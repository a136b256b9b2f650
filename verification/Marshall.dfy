/** The marshalling buffers: a growing array written at a moving index, with room left in
    front for the rpc header, and the reader on the other side. */
module Marshall {
  import opened Basics
  import opened Codec

  const RPC_HEADER_SZ: nat := 24
  const DEFAULT_RPC_SZ: nat := 1024

  /** `req_header` and `reply_header` as C++ ints and unsigned ints. */
  datatype ReqHeader = ReqHeader(xid: int, proc: int, cltNonce: nat, srvNonce: nat, xidRep: int)
  datatype ReplyHeader = ReplyHeader(xid: int, ret: int)

  predicate ReqFits(h: ReqHeader) {
    && FitsSigned(h.xid, 4) && FitsSigned(h.proc, 4) && FitsSigned(h.xidRep, 4)
    && h.cltNonce < Pow256(4) && h.srvNonce < Pow256(4)
  }

  predicate ReplyFits(h: ReplyHeader) {
    FitsSigned(h.xid, 4) && FitsSigned(h.ret, 4)
  }

  /** `pack`: four bytes, most significant first. */
  function IntBytes(x: int): (b: Bytes)
    requires FitsSigned(x, 4) || 0 <= x < Pow256(4)
    ensures |b| == 4
  {
    BigEndian(ToUnsigned(x, 4), 4)
  }

  function ReqBytes(h: ReqHeader): (b: Bytes)
    requires ReqFits(h)
    ensures |b| == 20
  {
    IntBytes(h.xid) + IntBytes(h.proc) + IntBytes(h.cltNonce) + IntBytes(h.srvNonce) + IntBytes(h.xidRep)
  }

  function ReplyBytes(h: ReplyHeader): (b: Bytes)
    requires ReplyFits(h)
    ensures |b| == 8
  {
    IntBytes(h.xid) + IntBytes(h.ret)
  }

  /** now is was with b written at position i; it may have become longer. */
  ghost predicate Wrote(was: Bytes, i: nat, now: Bytes, b: Bytes) {
    && i <= |was| <= |now| && i + |b| <= |now| && now[i..i + |b|] == b
    && forall k :: 0 <= k < |was| && !(i <= k < i + |b|) ==> now[k] == was[k]
  }

  lemma WroteBoth(was: Bytes, i: nat, mid: Bytes, a: Bytes, now: Bytes, b: Bytes)
    requires Wrote(was, i, mid, a) && Wrote(mid, i + |a|, now, b)
    ensures Wrote(was, i, now, a + b)
  {
    assert now[i..i + |a|] == mid[i..i + |a|] by {
      forall k | i <= k < i + |a| ensures now[k] == mid[k] {
      }
    }
    assert now[i..i + |a + b|] == now[i..i + |a|] + now[i + |a|..i + |a| + |b|];
  }

  lemma Overwritten(was: Bytes, i: nat, now: Bytes, p: Bytes)
    requires i + |p| <= |now| && i <= |was| <= |now|
    requires forall k :: 0 <= k < |p| ==> now[i + k] == p[k]
    requires forall k :: 0 <= k < |was| && !(i <= k < i + |p|) ==> now[k] == was[k]
    ensures Wrote(was, i, now, p)
  {
    var c := now[i..i + |p|];
    forall k | 0 <= k < |p| ensures c[k] == p[k] {
      assert c[k] == now[i + k];
    }
  }

  /** Writing at the end of the contents appends. */
  lemma WroteAtEnd(was: Bytes, i: nat, now: Bytes, b: Bytes)
    requires Wrote(was, i, now, b)
    ensures now[..i + |b|] == was[..i] + b
  {
    forall k | 0 <= k < i ensures now[k] == was[k] {
    }
    assert now[..i + |b|] == now[..i] + now[i..i + |b|];
  }

  /** The four shifted and masked bytes of pack. */
  function FourBytes(n: nat): (b: Bytes)
    ensures |b| == 4
  {
    [n / 0x100_0000 % 256, n / 0x1_0000 % 256, n / 0x100 % 256, n % 256]
  }

  lemma FourShifts(n: nat)
    ensures n / 0x100 / 256 == n / 0x1_0000 && n / 0x1_0000 / 256 == n / 0x100_0000
  {
  }

  lemma FourBytesBigEndian(n: nat)
    ensures BigEndian(n, 4) == FourBytes(n)
  {
    FourShifts(n);
    assert BigEndian(n / 0x100_0000, 1) == [n / 0x100_0000 % 256];
    assert BigEndian(n / 0x1_0000, 2) == [n / 0x100_0000 % 256, n / 0x1_0000 % 256];
    assert BigEndian(n / 0x100, 3) == [n / 0x100_0000 % 256, n / 0x1_0000 % 256, n / 0x100 % 256];
  }

  lemma WordIsFourBytes()
    ensures Pow256(4) == WORD
  {
    assert Pow256(2) == 65536;
  }

  lemma LongIsEightBytes()
    ensures Pow256(8) == 0x1_0000_0000_0000_0000
  {
    WordIsFourBytes();
    assert Pow256(6) == 0x1_0000_0000_0000;
  }

  lemma Shift(n: nat, m: nat, l: nat)
    requires n == 256 * m + l
    ensures n / 256 == m + l / 256 && n % 256 == l % 256
  {
  }

  lemma {:induction false} SplitBigEndian(h: nat, k: nat, l: nat, w: nat)
    requires l < Pow256(w)
    ensures BigEndian(h * Pow256(w) + l, k + w) == BigEndian(h, k) + BigEndian(l, w)
  {
    if w > 0 {
      var p := Pow256(w - 1);
      TimesTimes(h, p);
      Shift(h * (256 * p) + l, h * p, l);
      SplitBigEndian(h, k, l / 256, w - 1);
      BigEndianStep(h * (256 * p) + l, k + w);
      BigEndianStep(l, w);
    }
  }

  lemma TimesTimes(h: nat, p: nat)
    ensures h * (256 * p) == 256 * (h * p)
  {
  }

  lemma BigEndianStep(n: nat, w: nat)
    requires w > 0
    ensures BigEndian(n, w) == BigEndian(n / 256, w - 1) + [n % 256]
  {
  }

  /** The two halves of an unsigned long long. */
  lemma Halves(n: nat)
    requires n < Pow256(8)
    ensures n / WORD < Pow256(4) && n % WORD < Pow256(4)
    ensures BigEndian(n, 8) == BigEndian(n / WORD, 4) + BigEndian(n % WORD, 4)
  {
    WordIsFourBytes();
    LongIsEightBytes();
    var h, l := n / WORD, n % WORD;
    HighAndLow(n, h, l);
    SplitBigEndian(h, 4, l, 4);
  }

  lemma HighAndLow(n: nat, h: nat, l: nat)
    requires h == n / WORD && l == n % WORD
    ensures n == h * WORD + l && (n < 0x1_0000_0000_0000_0000 ==> h < WORD)
  {
  }

  lemma OneMoreItem(items: seq<Value>, e: Type, i: nat)
    requires AllHave(items, e) && i < |items|
    ensures AllHave(items[..i], e) && AllHave(items[..i + 1], e) && HasType(items[i], e)
    ensures EncodeItems(items[..i + 1], e) == EncodeItems(items[..i], e) + Encode(items[i], e)
  {
    assert items[..i + 1][..i] == items[..i];
  }

  class Marshaller {
    var buf: array<Byte>
    var ind: nat

    ghost predicate Valid()
      reads this
    {
      RPC_HEADER_SZ <= buf.Length && ind <= buf.Length
    }

    /** Everything below the index, the space for the header included. */
    ghost function Contents(): Bytes
      requires Valid()
      reads this, buf
    {
      buf[..ind]
    }

    constructor ()
      ensures Valid() && fresh(buf) && ind == RPC_HEADER_SZ && buf.Length == DEFAULT_RPC_SZ
    {
      buf := new Byte[DEFAULT_RPC_SZ];
      ind := RPC_HEADER_SZ;
    }

    method Realloc(capa: nat)
      requires buf.Length <= capa
      modifies this
      ensures fresh(buf) && buf.Length == capa && ind == old(ind)
      ensures buf[..old(buf.Length)] == old(buf[..])
    {
      var bigger := new Byte[capa];
      forall k | 0 <= k < buf.Length {
        bigger[k] := buf[k];
      }
      buf := bigger;
    }

    method RawByte(x: Byte)
      requires Valid()
      modifies this, buf
      ensures Valid() && (buf == old(buf) || fresh(buf))
      ensures old(ind) < old(buf.Length) ==> buf == old(buf)
      ensures buf.Length == if old(ind) < old(buf.Length) then old(buf.Length) else 2 * old(buf.Length)
      ensures ind == old(ind) + 1 && Wrote(old(buf[..]), old(ind), buf[..], [x])
    {
      ghost var was := buf[..];
      if ind >= buf.Length {
        Realloc(2 * buf.Length);
      }
      buf[ind] := x;
      ind := ind + 1;
      assert forall k :: 0 <= k < |was| && k != ind - 1 ==> buf[..][k] == was[k];
    }

    method RawBytes(p: Bytes)
      requires Valid()
      modifies this, buf
      ensures Valid() && (buf == old(buf) || fresh(buf))
      ensures buf.Length ==
              if old(ind) + |p| <= old(buf.Length) then old(buf.Length)
              else if old(buf.Length) > |p| then 2 * old(buf.Length)
              else old(buf.Length) + |p|
      ensures ind == old(ind) + |p| && Wrote(old(buf[..]), old(ind), buf[..], p)
    {
      ghost var was := buf[..];
      if ind + |p| > buf.Length {
        Realloc(if buf.Length > |p| then 2 * buf.Length else buf.Length + |p|);
      }
      assert forall k :: 0 <= k < |was| ==> buf[..][k] == was[k];
      Memcpy(p);
      Overwritten(was, ind, buf[..], p);
      ind := ind + |p|;
    }

    method Memcpy(p: Bytes)
      requires ind + |p| <= buf.Length
      modifies buf
      ensures forall k :: 0 <= k < |p| ==> buf[..][ind + k] == p[k]
      ensures forall k :: 0 <= k < buf.Length && !(ind <= k < ind + |p|) ==> buf[..][k] == old(buf[..])[k]
    {
      forall k | 0 <= k < |p| {
        buf[ind + k] := p[k];
      }
    }

    method RawTwo(b0: Byte, b1: Byte)
      requires Valid()
      modifies this, buf
      ensures Valid() && (buf == old(buf) || fresh(buf)) && buf.Length >= old(buf.Length)
      ensures old(ind) + 2 <= old(buf.Length) ==> buf == old(buf)
      ensures ind == old(ind) + 2 && Wrote(old(buf[..]), old(ind), buf[..], [b0, b1])
    {
      RawByte(b0);
      ghost var mid := buf[..];
      RawByte(b1);
      WroteBoth(old(buf[..]), old(ind), mid, [b0], buf[..], [b1]);
      assert [b0, b1] == [b0] + [b1];
    }

    /** The unsigned short operator. */
    method PutShort(n: nat)
      requires Valid() && n < Pow256(2)
      modifies this, buf
      ensures Valid() && (buf == old(buf) || fresh(buf)) && buf.Length >= old(buf.Length)
      ensures ind == old(ind) + 2 && Wrote(old(buf[..]), old(ind), buf[..], BigEndian(n, 2))
    {
      RawTwo(n / 0x100 % 256, n % 256);
      assert BigEndian(n, 2) == [n / 0x100 % 256, n % 256];
    }

    /** pack, and the int and unsigned int operators: most significant byte first. */
    method Pack(x: int)
      requires Valid() && (FitsSigned(x, 4) || 0 <= x < Pow256(4))
      modifies this, buf
      ensures Valid() && (buf == old(buf) || fresh(buf)) && buf.Length >= old(buf.Length)
      ensures old(ind) + 4 <= old(buf.Length) ==> buf == old(buf)
      ensures ind == old(ind) + 4 && Wrote(old(buf[..]), old(ind), buf[..], IntBytes(x))
    {
      var n := ToUnsigned(x, 4);
      ghost var b := FourBytes(n);
      RawTwo(n / 0x100_0000 % 256, n / 0x1_0000 % 256);
      ghost var mid := buf[..];
      RawTwo(n / 0x100 % 256, n % 256);
      WroteBoth(old(buf[..]), old(ind), mid, [b[0], b[1]], buf[..], [b[2], b[3]]);
      assert b == [b[0], b[1]] + [b[2], b[3]];
      FourBytesBigEndian(n);
    }

    /** The unsigned long long operator: the high half, then the low half. */
    method PutLong(n: nat)
      requires Valid() && n < Pow256(8)
      modifies this, buf
      ensures Valid() && (buf == old(buf) || fresh(buf)) && buf.Length >= old(buf.Length)
      ensures ind == old(ind) + 8 && Wrote(old(buf[..]), old(ind), buf[..], BigEndian(n, 8))
    {
      Halves(n);
      Pack(n / WORD);
      ghost var mid := buf[..];
      Pack(n % WORD);
      WroteBoth(old(buf[..]), old(ind), mid, IntBytes(n / WORD), buf[..], IntBytes(n % WORD));
    }

    /** pack_req_header: the header goes behind the length field, whatever was marshalled
        before; the index comes back to where it was. */
    method PackReqHeader(h: ReqHeader)
      requires Valid() && ReqFits(h)
      modifies this, buf
      ensures Valid() && buf == old(buf) && ind == old(ind)
      ensures Wrote(old(buf[..]), 4, buf[..], ReqBytes(h))
    {
      var saved := ind;
      ghost var s0 := buf[..];
      ind := 4;
      Pack(h.xid);
      ghost var s1 := buf[..];
      Pack(h.proc);
      ghost var s2 := buf[..];
      WroteBoth(s0, 4, s1, IntBytes(h.xid), s2, IntBytes(h.proc));
      Pack(h.cltNonce);
      ghost var s3 := buf[..];
      WroteBoth(s0, 4, s2, IntBytes(h.xid) + IntBytes(h.proc), s3, IntBytes(h.cltNonce));
      Pack(h.srvNonce);
      ghost var s4 := buf[..];
      WroteBoth(s0, 4, s3, IntBytes(h.xid) + IntBytes(h.proc) + IntBytes(h.cltNonce), s4, IntBytes(h.srvNonce));
      Pack(h.xidRep);
      WroteBoth(s0, 4, s4, IntBytes(h.xid) + IntBytes(h.proc) + IntBytes(h.cltNonce) + IntBytes(h.srvNonce),
                buf[..], IntBytes(h.xidRep));
      ind := saved;
    }

    method PackReplyHeader(h: ReplyHeader)
      requires Valid() && ReplyFits(h)
      modifies this, buf
      ensures Valid() && buf == old(buf) && ind == old(ind)
      ensures Wrote(old(buf[..]), 4, buf[..], ReplyBytes(h))
    {
      var saved := ind;
      ghost var s0 := buf[..];
      ind := 4;
      Pack(h.xid);
      ghost var s1 := buf[..];
      Pack(h.ret);
      WroteBoth(s0, 4, s1, IntBytes(h.xid), buf[..], IntBytes(h.ret));
      ind := saved;
    }

    /** The marshalling operators of all types: what was marshalled before stays, and the
        value's bytes follow it. */
    method Put(v: Value, t: Type)
      requires Valid() && HasType(v, t)
      modifies this, buf
      ensures Valid() && (buf == old(buf) || fresh(buf)) && buf.Length >= old(buf.Length)
      ensures ind == old(ind) + |Encode(v, t)| && Wrote(old(buf[..]), old(ind), buf[..], Encode(v, t))
      decreases t, 1
    {
      match t {
        case TBool => RawByte(if v.b then 1 else 0);
        case TInt(w, signed) => PutInt(v.n, w, signed);
        case TString => PutString(v.s);
        case TVec(e) => PutItems(v.items, e);
        case TPair(k, e) => PutPair(v.first, v.second, k, e);
        case TMap(entry) => PutItems(v.items, entry);
      }
    }

    method PutInt(n: int, w: nat, signed: bool)
      requires Valid() && HasType(Num(n), TInt(w, signed))
      modifies this, buf
      ensures Valid() && (buf == old(buf) || fresh(buf)) && buf.Length >= old(buf.Length)
      ensures ind == old(ind) + w && Wrote(old(buf[..]), old(ind), buf[..], BigEndian(ToUnsigned(n, w), w))
    {
      var u := ToUnsigned(n, w);
      if w == 1 {
        assert BigEndian(u, 1) == [u % 256];
        RawByte(u % 256);
      } else if w == 2 {
        PutShort(u);
      } else if w == 4 {
        Pack(u);
      } else {
        PutLong(u);
      }
    }

    method PutString(s: Bytes)
      requires Valid() && |s| < WORD
      modifies this, buf
      ensures Valid() && (buf == old(buf) || fresh(buf)) && buf.Length >= old(buf.Length)
      ensures ind == old(ind) + 4 + |s| && Wrote(old(buf[..]), old(ind), buf[..], BigEndian(|s|, 4) + s)
    {
      WordIsFourBytes();
      Pack(|s|);
      ghost var mid := buf[..];
      RawBytes(s);
      WroteBoth(old(buf[..]), old(ind), mid, BigEndian(|s|, 4), buf[..], s);
    }

    method PutPair(x: Value, y: Value, k: Type, e: Type)
      requires Valid() && HasType(x, k) && HasType(y, e)
      modifies this, buf
      ensures Valid() && (buf == old(buf) || fresh(buf)) && buf.Length >= old(buf.Length)
      ensures
        var b := Encode(x, k) + Encode(y, e);
        ind == old(ind) + |b| && Wrote(old(buf[..]), old(ind), buf[..], b)
      decreases TPair(k, e), 0
    {
      Put(x, k);
      ghost var mid := buf[..];
      Put(y, e);
      WroteBoth(old(buf[..]), old(ind), mid, Encode(x, k), buf[..], Encode(y, e));
    }

    /** Vectors and maps: the number of elements, then each of them. */
    method PutItems(items: seq<Value>, e: Type)
      requires Valid() && |items| < WORD && AllHave(items, e)
      modifies this, buf
      ensures Valid() && (buf == old(buf) || fresh(buf)) && buf.Length >= old(buf.Length)
      ensures
        var b := BigEndian(|items|, 4) + EncodeItems(items, e);
        ind == old(ind) + |b| && Wrote(old(buf[..]), old(ind), buf[..], b)
      decreases e, 4
    {
      WordIsFourBytes();
      Pack(|items|);
      ghost var mid := buf[..];
      PutElements(items, e);
      WroteBoth(old(buf[..]), old(ind), mid, BigEndian(|items|, 4), buf[..], EncodeItems(items, e));
    }

    method PutElements(items: seq<Value>, e: Type)
      requires Valid() && AllHave(items, e)
      modifies this, buf
      ensures Valid() && (buf == old(buf) || fresh(buf)) && buf.Length >= old(buf.Length)
      ensures ind == old(ind) + |EncodeItems(items, e)|
      ensures Wrote(old(buf[..]), old(ind), buf[..], EncodeItems(items, e))
      decreases e, 3
    {
      var i := 0;
      while i < |items|
        invariant i <= |items| && Valid() && (buf == old(buf) || fresh(buf)) && buf.Length >= old(buf.Length)
        invariant AllHave(items[..i], e)
        invariant ind == old(ind) + |EncodeItems(items[..i], e)|
        invariant Wrote(old(buf[..]), old(ind), buf[..], EncodeItems(items[..i], e))
      {
        PutElement(items, e, i, old(buf[..]), old(ind));
        i := i + 1;
      }
      assert items[..|items|] == items;
    }

    /** Element i behind those written since the contents were `was` and the index `start`. */
    method PutElement(items: seq<Value>, e: Type, i: nat, ghost was: Bytes, ghost start: nat)
      requires Valid() && AllHave(items, e) && i < |items| && AllHave(items[..i], e)
      requires ind == start + |EncodeItems(items[..i], e)| && Wrote(was, start, buf[..], EncodeItems(items[..i], e))
      modifies this, buf
      ensures Valid() && (buf == old(buf) || fresh(buf)) && buf.Length >= old(buf.Length)
      ensures AllHave(items[..i + 1], e)
      ensures ind == start + |EncodeItems(items[..i + 1], e)|
      ensures Wrote(was, start, buf[..], EncodeItems(items[..i + 1], e))
      decreases e, 2
    {
      OneMoreItem(items, e, i);
      ghost var mid, last := buf[..], Encode(items[i], e);
      Put(items[i], e);
      WroteBoth(was, start, mid, EncodeItems(items[..i], e), buf[..], last);
    }
  }
}
