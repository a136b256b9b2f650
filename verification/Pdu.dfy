/** Whole messages: header, body and length field do not disturb one another, and the
    receiver reads back the very request or reply of the protocol. */
module Pdu {
  import opened Basics
  import opened Codec
  import opened Marshall
  import opened Unmarshall
  import opened Wire
  import RpcTypes

  /** What pack_req_header and pack_reply_header do to a marshalled message. */
  function SetHeader(m: Bytes, hb: Bytes): (r: Bytes)
    requires |m| >= RPC_HEADER_SZ && |hb| <= 20
    ensures |r| == |m|
  {
    m[..4] + hb + m[4 + |hb|..]
  }

  /** The buffer-level contract of the header methods is SetHeader on the contents. */
  lemma WroteIsSetHeader(was: Bytes, now: Bytes, n: nat, hb: Bytes)
    requires Wrote(was, 4, now, hb) && RPC_HEADER_SZ <= n <= |was| && |hb| <= 20
    ensures now[..n] == SetHeader(was[..n], hb)
  {
    var a, b := now[..n], SetHeader(was[..n], hb);
    forall k | 0 <= k < n ensures a[k] == b[k] {
      if 4 <= k < 4 + |hb| {
        assert now[4..4 + |hb|][k - 4] == now[k];
      }
    }
  }

  /** Packing the header before the body or after it gives the same message. */
  lemma HeaderBeforeOrAfterBody(c: Bytes, hb: Bytes, body: Bytes)
    requires |c| == RPC_HEADER_SZ && |hb| <= 20
    ensures SetHeader(c + body, hb) == SetHeader(c, hb) + body
  {
  }

  /** Header, length and body of a finished message, each where the receiver looks for it. */
  lemma MessageParts(c: Bytes, hb: Bytes, body: Bytes)
    requires |c| == RPC_HEADER_SZ && |hb| <= 20 && RPC_HEADER_SZ + |body| < WORD
    ensures
      var pdu := SetLength(SetHeader(c + body, hb));
      && |pdu| == RPC_HEADER_SZ + |body| && Unpack32(pdu[..4]) == |pdu|
      && Holds(pdu, 4, hb) && pdu[RPC_HEADER_SZ..] == body
  {
    var m := SetHeader(c + body, hb);
    HeaderBeforeOrAfterBody(c, hb, body);
    var pdu := SetLength(m);
    LengthInFront(m);
    assert pdu[4..4 + |hb|] == m[4..4 + |hb|] == hb;
    assert pdu[RPC_HEADER_SZ..] == m[RPC_HEADER_SZ..] == body;
  }

  lemma SignedField(x: int, buf: Bytes, i: nat)
    requires FitsSigned(x, 4) && Holds(buf, i, IntBytes(x))
    ensures ReadSigned(At(buf, i)) == (x, At(buf, i + 4))
  {
    SignedRoundTrip(x, 4);
    UnsignedRoundTrip(ToUnsigned(x, 4), 4, buf, i);
  }

  lemma ReqHeaderRoundTrip(h: ReqHeader, buf: Bytes, i: nat)
    requires ReqFits(h) && Holds(buf, 4, ReqBytes(h))
    ensures UnpackReq(At(buf, i)) == (h, At(buf, RPC_HEADER_SZ))
  {
    var a, b, c, d, e := IntBytes(h.xid), IntBytes(h.proc), IntBytes(h.cltNonce), IntBytes(h.srvNonce), IntBytes(h.xidRep);
    HoldsParts(buf, 4, a + b + c + d, e);
    HoldsParts(buf, 4, a + b + c, d);
    HoldsParts(buf, 4, a + b, c);
    HoldsParts(buf, 4, a, b);
    SignedField(h.xid, buf, 4);
    SignedField(h.proc, buf, 8);
    UnsignedRoundTrip(h.cltNonce, 4, buf, 12);
    UnsignedRoundTrip(h.srvNonce, 4, buf, 16);
    SignedField(h.xidRep, buf, 20);
  }

  lemma ReplyHeaderRoundTrip(h: ReplyHeader, buf: Bytes, i: nat)
    requires ReplyFits(h) && Holds(buf, 4, ReplyBytes(h))
    ensures UnpackReply(At(buf, i)) == (h, At(buf, RPC_HEADER_SZ))
  {
    HoldsParts(buf, 4, IntBytes(h.xid), IntBytes(h.ret));
    SignedField(h.xid, buf, 4);
    SignedField(h.ret, buf, 8);
  }

  /** A message whose body is an argument list: from behind the header on the list reads
      back, and nothing is left. */
  lemma BodyReadsBack(pdu: Bytes, vs: seq<Value>, ts: seq<Type>)
    requires AllTyped(vs, ts) && |pdu| >= RPC_HEADER_SZ && pdu[RPC_HEADER_SZ..] == EncodeArgs(vs, ts)
    ensures
      var (args, r) := DecodeArgs(ts, At(pdu, RPC_HEADER_SZ));
      args == vs && OkDone(r)
  {
    assert pdu == pdu[..RPC_HEADER_SZ] + EncodeArgs(vs, ts);
    WholeListIsDone(pdu[..RPC_HEADER_SZ], vs, ts);
  }

  /** A request with its arguments: the receiver unpacks the header that was packed, then
      the argument list, and is done. */
  lemma RequestRoundTrip(c: Bytes, h: ReqHeader, vs: seq<Value>, ts: seq<Type>)
    requires |c| == RPC_HEADER_SZ && ReqFits(h) && AllTyped(vs, ts)
    requires RPC_HEADER_SZ + |EncodeArgs(vs, ts)| < WORD
    ensures
      var pdu := SetLength(SetHeader(c + EncodeArgs(vs, ts), ReqBytes(h)));
      var (got, r) := UnpackReq(At(pdu, 0));
      var (args, r') := DecodeArgs(ts, r);
      got == h && args == vs && OkDone(r')
  {
    var body := EncodeArgs(vs, ts);
    var pdu := SetLength(SetHeader(c + body, ReqBytes(h)));
    MessageParts(c, ReqBytes(h), body);
    ReqHeaderRoundTrip(h, pdu, 0);
    BodyReadsBack(pdu, vs, ts);
  }

  lemma ReplyRoundTrip(c: Bytes, h: ReplyHeader, v: Value, t: Type)
    requires |c| == RPC_HEADER_SZ && ReplyFits(h) && HasType(v, t)
    requires RPC_HEADER_SZ + |Encode(v, t)| < WORD
    ensures
      var pdu := SetLength(SetHeader(c + Encode(v, t), ReplyBytes(h)));
      var (got, r) := UnpackReply(At(pdu, 0));
      var (res, r') := Decode(t, r);
      got == h && res == v && OkDone(r')
  {
    var body := Encode(v, t);
    MessageParts(c, ReplyBytes(h), body);
    var pdu := SetLength(SetHeader(c + body, ReplyBytes(h)));
    ReplyHeaderRoundTrip(h, pdu, 0);
    assert Holds(pdu, RPC_HEADER_SZ, body);
    RoundTrip(v, t, pdu, RPC_HEADER_SZ);
  }

  // ---- the messages of the protocol ----

  predicate Sendable(h: RpcTypes.Header) {
    h.xid < 0x8000_0000 && h.proc < 0x8000_0000 && h.xidRep < 0x8000_0000 && h.cltNonce < WORD && h.srvNonce < WORD
  }

  function Packed(h: RpcTypes.Header): (r: ReqHeader)
    requires Sendable(h)
    ensures ReqFits(r)
  {
    WordIsFourBytes();
    ReqHeader(h.xid, h.proc, h.cltNonce, h.srvNonce, h.xidRep)
  }

  function RequestPdu(c: Bytes, req: RpcTypes.Request): Bytes
    requires |c| == RPC_HEADER_SZ && Sendable(req.h) && RPC_HEADER_SZ + |req.args| < WORD
  {
    SetLength(SetHeader(c + req.args, ReqBytes(Packed(req.h))))
  }

  /** What dispatch makes of a message; None when the header cannot be unmarshalled. */
  function ParseRequest(pdu: Bytes): Option<RpcTypes.Request> {
    var (h, r) := UnpackReq(At(pdu, 0));
    if !r.ok || |pdu| < RPC_HEADER_SZ || h.xid < 0 || h.proc < 0 || h.xidRep < 0 then None
    else Some(RpcTypes.Request(RpcTypes.Header(h.xid, h.proc, h.cltNonce, h.srvNonce, h.xidRep), pdu[RPC_HEADER_SZ..]))
  }

  function ReplyPdu(c: Bytes, rep: RpcTypes.Reply): Bytes
    requires |c| == RPC_HEADER_SZ && rep.xid < 0x8000_0000 && -0x8000_0000 <= rep.ret < 0x8000_0000
    requires RPC_HEADER_SZ + |rep.body| < WORD
  {
    WordIsFourBytes();
    SetLength(SetHeader(c + rep.body, ReplyBytes(ReplyHeader(rep.xid, rep.ret))))
  }

  function ParseReply(pdu: Bytes): Option<RpcTypes.Reply> {
    var (h, r) := UnpackReply(At(pdu, 0));
    if !r.ok || |pdu| < RPC_HEADER_SZ || h.xid < 0 then None
    else Some(RpcTypes.Reply(h.xid, h.ret, pdu[RPC_HEADER_SZ..]))
  }

  /** The wire carries requests and replies of the protocol faithfully, whatever the unused
      header bytes hold. */
  lemma MessagesSurvive(c: Bytes, req: RpcTypes.Request, rep: RpcTypes.Reply)
    requires |c| == RPC_HEADER_SZ && Sendable(req.h) && RPC_HEADER_SZ + |req.args| < WORD
    requires rep.xid < 0x8000_0000 && -0x8000_0000 <= rep.ret < 0x8000_0000 && RPC_HEADER_SZ + |rep.body| < WORD
    ensures ParseRequest(RequestPdu(c, req)) == Some(req)
    ensures ParseReply(ReplyPdu(c, rep)) == Some(rep)
  {
    WordIsFourBytes();
    MessageParts(c, ReqBytes(Packed(req.h)), req.args);
    ReqHeaderRoundTrip(Packed(req.h), RequestPdu(c, req), 0);
    var h := ReplyHeader(rep.xid, rep.ret);
    MessageParts(c, ReplyBytes(h), rep.body);
    ReplyHeaderRoundTrip(h, ReplyPdu(c, rep), 0);
  }

  lemma WireOrder(x: nat)
    requires x < WORD
    ensures BigEndian(x, 4) == Pack32(x)
  {
    FourBytesBigEndian(x);
  }

  lemma FieldsOf(h: ReqHeader, b: Bytes, i: nat)
    requires ReqFits(h) && Holds(b, i, ReqBytes(h))
    ensures b[i..i + 4] == IntBytes(h.xid) && b[i + 4..i + 8] == IntBytes(h.proc) && b[i + 8..i + 12] == IntBytes(h.cltNonce)
    ensures b[i + 12..i + 16] == IntBytes(h.srvNonce) && b[i + 16..i + 20] == IntBytes(h.xidRep)
  {
    var p, q, r, s, t := IntBytes(h.xid), IntBytes(h.proc), IntBytes(h.cltNonce), IntBytes(h.srvNonce), IntBytes(h.xidRep);
    HoldsParts(b, i, p + q + r + s, t);
    HoldsParts(b, i, p + q + r, s);
    HoldsParts(b, i, p + q, r);
    HoldsParts(b, i, p, q);
  }

  /** A request, byte by byte: length, xid, procedure, the two nonces, xid_rep, each in four bytes
      of network order, then the arguments. */
  lemma RequestLayout(c: Bytes, req: RpcTypes.Request)
    requires |c| == RPC_HEADER_SZ && Sendable(req.h) && 24 + |req.args| < WORD
    ensures
      var pdu, h := RequestPdu(c, req), req.h;
      && |pdu| == 24 + |req.args| && pdu[..4] == Pack32(|pdu|)
      && pdu[4..8] == Pack32(h.xid) && pdu[8..12] == Pack32(h.proc) && pdu[12..16] == Pack32(h.cltNonce)
      && pdu[16..20] == Pack32(h.srvNonce) && pdu[20..24] == Pack32(h.xidRep)
      && pdu[24..] == req.args
  {
    var h, m := Packed(req.h), SetHeader(c + req.args, ReqBytes(Packed(req.h)));
    MessageParts(c, ReqBytes(h), req.args);
    FieldsOf(h, RequestPdu(c, req), 4);
    WireOrder(h.xid);
    WireOrder(h.proc);
    WireOrder(h.cltNonce);
    WireOrder(h.srvNonce);
    WireOrder(h.xidRep);
    assert SetLength(m)[..4] == Pack32(|m|);
  }

  /** A reply: length, xid, the result in two's complement, then the marshalled value. */
  lemma ReplyLayout(c: Bytes, rep: RpcTypes.Reply)
    requires |c| == RPC_HEADER_SZ && rep.xid < 0x8000_0000 && -0x8000_0000 <= rep.ret < 0x8000_0000
    requires 24 + |rep.body| < WORD
    ensures
      var pdu := ReplyPdu(c, rep);
      && |pdu| == 24 + |rep.body| && pdu[..4] == Pack32(|pdu|) && pdu[4..8] == Pack32(rep.xid)
      && pdu[8..12] == Pack32(if rep.ret < 0 then WORD + rep.ret else rep.ret)
      && pdu[24..] == rep.body
  {
    WordIsFourBytes();
    var h := ReplyHeader(rep.xid, rep.ret);
    var m := SetHeader(c + rep.body, ReplyBytes(h));
    MessageParts(c, ReplyBytes(h), rep.body);
    HoldsParts(ReplyPdu(c, rep), 4, IntBytes(h.xid), IntBytes(h.ret));
    WireOrder(h.xid);
    WireOrder(if rep.ret < 0 then WORD + rep.ret else rep.ret);
    assert SetLength(m)[..4] == Pack32(|m|);
  }

  // ---- the two ends, with their buffers ----

  /** call and call1: the arguments are marshalled one by one, then the header is packed in
      front of them.  `space` is what the header space held before. */
  method MarshallRequest(h: ReqHeader, vs: seq<Value>, ts: seq<Type>) returns (m: Marshaller, ghost space: Bytes)
    requires ReqFits(h) && AllTyped(vs, ts)
    ensures fresh(m) && m.Valid() && |space| == RPC_HEADER_SZ
    ensures m.Contents() == SetHeader(space + EncodeArgs(vs, ts), ReqBytes(h))
  {
    m := new Marshaller();
    space := m.Contents();
    var i := 0;
    assert space + EncodeArgs(vs[..0], ts[..0]) == space;
    while i < |vs|
      invariant i <= |vs| && fresh(m) && fresh(m.buf) && m.Valid() && AllTyped(vs[..i], ts[..i])
      invariant m.Contents() == space + EncodeArgs(vs[..i], ts[..i])
    {
      ghost var was, ind := m.buf[..], m.ind;
      m.Put(vs[i], ts[i]);
      WroteAtEnd(was, ind, m.buf[..], Encode(vs[i], ts[i]));
      OneMoreArg(space, vs, ts, i);
      i := i + 1;
    }
    assert vs[..|vs|] == vs && ts[..|ts|] == ts;
    ghost var was := m.buf[..];
    m.PackReqHeader(h);
    WroteIsSetHeader(was, m.buf[..], m.ind, ReqBytes(h));
  }

  lemma OneMoreArg(space: Bytes, vs: seq<Value>, ts: seq<Type>, i: nat)
    requires AllTyped(vs, ts) && i < |vs|
    ensures AllTyped(vs[..i], ts[..i]) && AllTyped(vs[..i + 1], ts[..i + 1])
    ensures
      space + EncodeArgs(vs[..i + 1], ts[..i + 1]) == space + EncodeArgs(vs[..i], ts[..i]) + Encode(vs[i], ts[i])
  {
    ArgsLast(vs[..i + 1], ts[..i + 1]);
    assert vs[..i + 1][..i] == vs[..i] && ts[..i + 1][..i] == ts[..i];
    assert space + (EncodeArgs(vs[..i], ts[..i]) + Encode(vs[i], ts[i]))
        == space + EncodeArgs(vs[..i], ts[..i]) + Encode(vs[i], ts[i]);
  }

  /** dispatch and the registered handlers: the header, then the arguments one by one. */
  method UnmarshallRequest(pdu: Bytes, ts: seq<Type>) returns (h: ReqHeader, vs: seq<Value>, done: bool)
    ensures
      var (got, r) := UnpackReq(At(pdu, 0));
      var (args, r') := DecodeArgs(ts, r);
      h == got && vs == args && (done <==> OkDone(r'))
  {
    var u := new Unmarshaller(pdu);
    h := u.UnpackReqHeader();
    ghost var r := u.State();
    vs := [];
    var i := 0;
    while i < |ts|
      invariant i <= |ts| && fresh(u) && (vs, u.State()) == DecodeArgs(ts[..i], r)
    {
      assert ts[..i + 1][..i] == ts[..i];
      var v := u.Get(ts[i]);
      vs := vs + [v];
      i := i + 1;
    }
    assert ts[..|ts|] == ts;
    done := u.IsOkDone();
  }

  /** From one buffer to the other: what the receiver's methods make of what the sender's
      methods marshalled, once the connection has filled in the length. */
  method RequestThroughBuffers(h: ReqHeader, vs: seq<Value>, ts: seq<Type>)
    returns (got: ReqHeader, args: seq<Value>, done: bool)
    requires ReqFits(h) && AllTyped(vs, ts) && RPC_HEADER_SZ + |EncodeArgs(vs, ts)| < WORD
    ensures got == h && args == vs && done
  {
    ghost var space;
    var m;
    m, space := MarshallRequest(h, vs, ts);
    var pdu := SetLength(m.buf[..m.ind]);
    got, args, done := UnmarshallRequest(pdu, ts);
    RequestRoundTrip(space, h, vs, ts);
  }
}
