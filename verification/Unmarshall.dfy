/** The unmarshalling buffer: each method computes the corresponding decoding function, on any
    bytes at all. */
module Unmarshall {
  import opened Basics
  import opened Codec
  import opened Marshall

  // ---- headers ----

  function ReadSigned(r: Reader): (int, Reader) {
    var (u, r1) := ReadUnsigned(r, 4);
    (ToSigned(u, 4), r1)
  }

  /** unpack_req_header: skips the length field and leaves the index on the body. */
  function UnpackReq(r: Reader): (ReqHeader, Reader) {
    var (xid, r1) := ReadSigned(r.(ind := 4));
    var (proc, r2) := ReadSigned(r1);
    var (clt, r3) := ReadUnsigned(r2, 4);
    var (srv, r4) := ReadUnsigned(r3, 4);
    var (rep, r5) := ReadSigned(r4);
    (ReqHeader(xid, proc, clt, srv, rep), r5.(ind := RPC_HEADER_SZ))
  }

  function UnpackReply(r: Reader): (ReplyHeader, Reader) {
    var (xid, r1) := ReadSigned(r.(ind := 4));
    var (ret, r2) := ReadSigned(r1);
    (ReplyHeader(xid, ret), r2.(ind := RPC_HEADER_SZ))
  }

  class Unmarshaller {
    var buf: Bytes
    var ind: nat
    var ok: bool

    ghost function State(): Reader
      reads this
    {
      Reader(buf, ind, ok)
    }

    constructor (b: Bytes)
      ensures State() == At(b, 0)
    {
      buf, ind, ok := b, 0, true;
    }

    /** take_in: the other reader's bytes, from behind the header on. */
    method TakeIn(another: Unmarshaller)
      requires another != this
      modifies this, another
      ensures State() == Reader(old(another.buf), RPC_HEADER_SZ, |old(another.buf)| >= RPC_HEADER_SZ)
      ensures another.buf == [] && another.ind == 0
    {
      buf := another.buf;
      another.buf, another.ind := [], 0;
      ind := RPC_HEADER_SZ;
      ok := |buf| >= RPC_HEADER_SZ;
    }

    method IsOkDone() returns (done: bool)
      ensures done <==> OkDone(State())
    {
      done := ok && ind == |buf|;
    }

    method RawByte() returns (c: Byte)
      modifies this
      ensures (c, State()) == ReadByte(old(State()))
    {
      c := 0;
      if ind >= |buf| {
        ok := false;
      } else {
        c := buf[ind];
        ind := ind + 1;
      }
    }

    method GetShort() returns (x: nat)
      modifies this
      ensures (x, State()) == ReadUnsigned(old(State()), 2)
    {
      var hi: nat := RawByte();
      ghost var r1 := State();
      assert (hi, r1) == ReadUnsigned(old(State()), 1);
      var lo: nat := RawByte();
      x := hi * 0x100 + lo;
    }

    /** unpack, and the int and unsigned int operators. */
    method GetInt() returns (x: nat)
      modifies this
      ensures (x, State()) == ReadUnsigned(old(State()), 4)
    {
      var b0: nat := RawByte();
      assert (b0, State()) == ReadUnsigned(old(State()), 1);
      var b1: nat := RawByte();
      assert (b0 * 0x100 + b1, State()) == ReadUnsigned(old(State()), 2);
      var b2: nat := RawByte();
      assert (b0 * 0x1_0000 + b1 * 0x100 + b2, State()) == ReadUnsigned(old(State()), 3);
      var b3: nat := RawByte();
      x := b0 * 0x100_0000 + b1 * 0x1_0000 + b2 * 0x100 + b3;
    }

    method GetSigned() returns (x: int)
      modifies this
      ensures (x, State()) == ReadSigned(old(State()))
    {
      var u := GetInt();
      x := ToSigned(u, 4);
    }

    /** The unsigned long long operator: the high half, then the low half. */
    method GetLong() returns (x: nat)
      modifies this
      ensures (x, State()) == ReadUnsigned(old(State()), 8)
    {
      ReadHalves(State(), 4, 4);
      WordIsFourBytes();
      var h := GetInt();
      var l := GetInt();
      x := h * WORD + l;
    }

    method GetString() returns (s: Bytes)
      modifies this
      ensures (s, State()) == ReadString(old(State()))
    {
      var n := GetInt();
      s := [];
      if ok {
        if ind + n > |buf| {
          ok := false;
        } else {
          s := buf[ind..ind + n];
          ind := ind + n;
        }
      }
    }

    /** The unmarshalling operators of all types, into a fresh variable. */
    method Get(t: Type) returns (v: Value)
      modifies this
      ensures (v, State()) == Decode(t, old(State()))
      decreases t, 0
    {
      match t {
        case TBool =>
          var c := RawByte();
          v := Bool(c != 0);
        case TInt(w, signed) =>
          var u := GetUnsigned(w);
          v := Num(if signed then ToSigned(u, w) else u);
        case TString =>
          var s := GetString();
          v := Str(s);
        case TVec(e) =>
          var n := GetInt();
          var vs := GetItems(e, n);
          v := List(vs);
        case TPair(k, e) =>
          var a := Get(k);
          var b := Get(e);
          v := Pair(a, b);
        case TMap(entry) =>
          var n := GetInt();
          var d := GetEntries(entry, n);
          v := List(d);
      }
    }

    method GetUnsigned(w: nat) returns (u: nat)
      modifies this
      ensures (u, State()) == ReadUnsigned(old(State()), w)
    {
      if w == 2 {
        u := GetShort();
      } else if w == 4 {
        u := GetInt();
      } else if w == 8 {
        u := GetLong();
      } else if w == 0 {
        u := 0;
      } else {
        var hi := GetUnsigned(w - 1);
        var c := RawByte();
        u := hi * 256 + c;
      }
    }

    method GetItems(e: Type, n: nat) returns (vs: seq<Value>)
      modifies this
      ensures (vs, State()) == DecodeItems(e, n, old(State()))
      decreases e, n + 1
    {
      vs := [];
      var i := 0;
      while i < n
        invariant i <= n && (vs, State()) == DecodeItems(e, i, old(State()))
      {
        var z := Get(e);
        vs := vs + [z];
        i := i + 1;
      }
    }

    /** The map operator: entries are inserted into an emptied map as they arrive. */
    method GetEntries(entry: Type, n: nat) returns (d: seq<Value>)
      modifies this
      ensures var (vs, r) := DecodeItems(entry, n, old(State())); d == InsertAll(vs) && State() == r
      decreases entry, n + 1
    {
      d := [];
      var i := 0;
      ghost var vs: seq<Value> := [];
      while i < n
        invariant i <= n && (vs, State()) == DecodeItems(entry, i, old(State()))
        invariant d == InsertAll(vs)
      {
        var z := Get(entry);
        InsertOneMore(vs, z);
        vs := vs + [z];
        if z.Pair? {
          d := Insert(d, z.first, z.second);
        }
        i := i + 1;
      }
    }

    method UnpackReqHeader() returns (h: ReqHeader)
      modifies this
      ensures (h, State()) == UnpackReq(old(State()))
    {
      ind := 4;
      var xid := GetSigned();
      var proc := GetSigned();
      var clt := GetInt();
      var srv := GetInt();
      var rep := GetSigned();
      ind := RPC_HEADER_SZ;
      h := ReqHeader(xid, proc, clt, srv, rep);
    }

    method UnpackReplyHeader() returns (h: ReplyHeader)
      modifies this
      ensures (h, State()) == UnpackReply(old(State()))
    {
      ind := 4;
      var xid := GetSigned();
      var ret := GetSigned();
      ind := RPC_HEADER_SZ;
      h := ReplyHeader(xid, ret);
    }
  }

  lemma InsertOneMore(vs: seq<Value>, z: Value)
    ensures
      var d := InsertAll(vs);
      InsertAll(vs + [z]) == if z.Pair? then Insert(d, z.first, z.second) else d
  {
    assert (vs + [z])[..|vs|] == vs;
  }

  lemma ReadNext(r: Reader, k: nat)
    ensures ReadUnsigned(r, k + 1) ==
      var (v, r1) := ReadUnsigned(r, k);
      (v * 256 + ReadByte(r1).0, ReadByte(r1).1)
  {
  }

  lemma {:induction false} ReadHalves(r: Reader, k: nat, w: nat)
    ensures ReadUnsigned(r, k + w).1 == ReadUnsigned(ReadUnsigned(r, k).1, w).1
    ensures ReadUnsigned(r, k + w).0 == ReadUnsigned(r, k).0 * Pow256(w) + ReadUnsigned(ReadUnsigned(r, k).1, w).0
  {
    if w > 0 {
      ReadHalves(r, k, w - 1);
      ReadNext(r, k + w - 1);
      ReadNext(ReadUnsigned(r, k).1, w - 1);
      var hi := ReadUnsigned(r, k).0;
      var (lo, r2) := ReadUnsigned(ReadUnsigned(r, k).1, w - 1);
      Distribute(hi, Pow256(w - 1), lo, ReadByte(r2).0);
    }
  }

  lemma Distribute(hi: nat, p: nat, lo: nat, b: nat)
    ensures (hi * p + lo) * 256 + b == hi * (256 * p) + (lo * 256 + b)
  {
  }
}
