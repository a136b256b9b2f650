/** What the marshalling operators put on the wire for each C++ type, and what the
    unmarshalling operators make of any bytes at all. */
module Codec {
  import opened Basics

  /** The marshallable types: bool, the integers by width in bytes, strings, vectors and maps. */
  datatype Type =
    | TBool
    | TInt(width: nat, signed: bool)
    | TString
    | TVec(elem: Type)
    | TPair(key: Type, val: Type)
    | TMap(entry: Type)

  /** A map is the list of its entries in ascending order of keys. */
  datatype Value =
    | Bool(b: bool)
    | Num(n: int)
    | Str(s: Bytes)
    | List(items: seq<Value>)
    | Pair(first: Value, second: Value)

  // ---- the order of map keys ----

  function Sign(n: int): int {
    if n < 0 then -1 else if n > 0 then 1 else 0
  }

  function CompareBytes(a: Bytes, b: Bytes): int {
    if a == [] || b == [] then Sign(|a| - |b|)
    else if a[0] != b[0] then Sign(a[0] as int - b[0] as int)
    else CompareBytes(a[1..], b[1..])
  }

  /** Three-way comparison: numbers by value, strings, vectors and pairs lexicographically. */
  function Compare(a: Value, b: Value): int
    decreases a
  {
    if a.Bool? && b.Bool? then (if a.b == b.b then 0 else if b.b then -1 else 1)
    else if a.Num? && b.Num? then Sign(a.n - b.n)
    else if a.Str? && b.Str? then CompareBytes(a.s, b.s)
    else if a.List? && b.List? then CompareLists(a.items, b.items)
    else if a.Pair? && b.Pair? then
      var c := Compare(a.first, b.first);
      if c != 0 then c else Compare(a.second, b.second)
    else 0
  }

  function CompareLists(s: seq<Value>, t: seq<Value>): int
    decreases s
  {
    if s == [] || t == [] then Sign(|s| - |t|)
    else
      var c := Compare(s[0], t[0]);
      if c != 0 then c else CompareLists(s[1..], t[1..])
  }

  predicate Ascending(d: seq<Value>) {
    && (forall i :: 0 <= i < |d| ==> d[i].Pair?)
    && (forall i, j :: 0 <= i < j < |d| ==> Compare(d[i].first, d[j].first) < 0)
  }

  /** `d[a] = b` on an ordered map. */
  function Insert(d: seq<Value>, a: Value, b: Value): seq<Value> {
    if d == [] then [Pair(a, b)]
    else if !d[0].Pair? then d
    else
      var c := Compare(d[0].first, a);
      if c < 0 then [d[0]] + Insert(d[1..], a, b)
      else if c == 0 then [Pair(d[0].first, b)] + d[1..]
      else [Pair(a, b)] + d
  }

  function InsertAll(entries: seq<Value>): seq<Value> {
    if entries == [] then []
    else
      var n := |entries| - 1;
      var d := InsertAll(entries[..n]);
      if entries[n].Pair? then Insert(d, entries[n].first, entries[n].second) else d
  }

  // ---- which values a type has ----

  function Pow256(w: nat): (p: nat)
    ensures p >= 1
  {
    if w == 0 then 1 else 256 * Pow256(w - 1)
  }

  predicate FitsSigned(n: int, w: nat) {
    0 - Pow256(w) <= 2 * n < Pow256(w)
  }

  predicate HasType(v: Value, t: Type)
    decreases t, 0
  {
    match t
    case TBool => v.Bool?
    case TInt(w, signed) =>
      && v.Num? && w in {1, 2, 4, 8} && (w == 8 ==> !signed)
      && (if signed then FitsSigned(v.n, w) else 0 <= v.n < Pow256(w))
    case TString => v.Str? && |v.s| < WORD
    case TVec(e) => v.List? && |v.items| < WORD && AllHave(v.items, e)
    case TPair(k, e) => v.Pair? && HasType(v.first, k) && HasType(v.second, e)
    case TMap(entry) =>
      v.List? && |v.items| < WORD && entry.TPair? && Ascending(v.items) && AllHave(v.items, entry)
  }

  predicate AllHave(items: seq<Value>, e: Type)
    decreases e, 1
  {
    forall i :: 0 <= i < |items| ==> HasType(items[i], e)
  }

  // ---- marshalling ----

  /** The low w bytes of n, most significant first. */
  function BigEndian(n: nat, w: nat): (b: Bytes)
    ensures |b| == w
  {
    if w == 0 then [] else BigEndian(n / 256, w - 1) + [n % 256]
  }

  /** Two's complement, as the cast to an unsigned type computes it. */
  function ToUnsigned(n: int, w: nat): nat
    requires FitsSigned(n, w) || 0 <= n < Pow256(w)
  {
    if n < 0 then n + Pow256(w) else n
  }

  function Encode(v: Value, t: Type): Bytes
    requires HasType(v, t)
    decreases t, 0
  {
    match t
    case TBool => [if v.b then 1 else 0]
    case TInt(w, signed) => BigEndian(ToUnsigned(v.n, w), w)
    case TString => BigEndian(|v.s|, 4) + v.s
    case TVec(e) => BigEndian(|v.items|, 4) + EncodeItems(v.items, e)
    case TPair(k, e) => Encode(v.first, k) + Encode(v.second, e)
    case TMap(entry) => BigEndian(|v.items|, 4) + EncodeItems(v.items, entry)
  }

  function EncodeItems(items: seq<Value>, e: Type): Bytes
    requires AllHave(items, e)
    decreases e, |items| + 1
  {
    if items == [] then []
    else EncodeItems(items[..|items| - 1], e) + Encode(items[|items| - 1], e)
  }

  // ---- unmarshalling ----

  datatype Reader = Reader(buf: Bytes, ind: nat, ok: bool)

  /** Reading past the end yields zero and clears `ok` for good. */
  function ReadByte(r: Reader): (Byte, Reader) {
    if r.ind >= |r.buf| then (0, r.(ok := false)) else (r.buf[r.ind], r.(ind := r.ind + 1))
  }

  function ReadUnsigned(r: Reader, w: nat): (res: (nat, Reader))
    ensures res.0 < Pow256(w)
  {
    if w == 0 then (0, r)
    else
      var (hi, r1) := ReadUnsigned(r, w - 1);
      var (b, r2) := ReadByte(r1);
      (hi * 256 + b, r2)
  }

  function ToSigned(u: nat, w: nat): int {
    if 2 * u >= Pow256(w) then u - Pow256(w) else u
  }

  /** A string, or an empty one if the bytes do not suffice. */
  function ReadString(r: Reader): (Bytes, Reader) {
    var (n, r1) := ReadUnsigned(r, 4);
    if !r1.ok then ([], r1)
    else if r1.ind + n > |r1.buf| then ([], r1.(ok := false))
    else (r1.buf[r1.ind..r1.ind + n], r1.(ind := r1.ind + n))
  }

  function Decode(t: Type, r: Reader): (Value, Reader)
    decreases t, 0
  {
    match t
    case TBool => var (b, r1) := ReadByte(r); (Bool(b != 0), r1)
    case TInt(w, signed) =>
      var (u, r1) := ReadUnsigned(r, w);
      (Num(if signed then ToSigned(u, w) else u), r1)
    case TString => var (s, r1) := ReadString(r); (Str(s), r1)
    case TVec(e) =>
      var (n, r1) := ReadUnsigned(r, 4);
      var (vs, r2) := DecodeItems(e, n, r1);
      (List(vs), r2)
    case TPair(k, e) =>
      var (a, r1) := Decode(k, r);
      var (b, r2) := Decode(e, r1);
      (Pair(a, b), r2)
    case TMap(entry) =>
      var (n, r1) := ReadUnsigned(r, 4);
      var (vs, r2) := DecodeItems(entry, n, r1);
      (List(InsertAll(vs)), r2)
  }

  function DecodeItems(e: Type, n: nat, r: Reader): (res: (seq<Value>, Reader))
    ensures |res.0| == n
    decreases e, n + 1
  {
    if n == 0 then ([], r)
    else
      var (vs, r1) := DecodeItems(e, n - 1, r);
      var (v, r2) := Decode(e, r1);
      (vs + [v], r2)
  }

  predicate OkDone(r: Reader) {
    r.ok && r.ind == |r.buf|
  }

  // ---- round trips ----

  /** A healthy reader of buf standing at position i. */
  function At(buf: Bytes, i: nat): Reader {
    Reader(buf, i, true)
  }

  /** buf holds the bytes b at position i. */
  predicate Holds(buf: Bytes, i: nat, b: Bytes) {
    i + |b| <= |buf| && buf[i..i + |b|] == b
  }

  lemma HoldsParts(buf: Bytes, i: nat, a: Bytes, b: Bytes)
    requires Holds(buf, i, a + b)
    ensures Holds(buf, i, a) && Holds(buf, i + |a|, b)
  {
    var ab := buf[i..i + |a| + |b|];
    assert ab[..|a|] == a && ab[|a|..] == b;
  }

  lemma {:induction false} UnsignedRoundTrip(n: nat, w: nat, buf: Bytes, i: nat)
    requires n < Pow256(w) && Holds(buf, i, BigEndian(n, w))
    ensures ReadUnsigned(At(buf, i), w) == (n, At(buf, i + w))
  {
    if w > 0 {
      HoldsParts(buf, i, BigEndian(n / 256, w - 1), [n % 256]);
      UnsignedRoundTrip(n / 256, w - 1, buf, i);
      assert buf[i + w - 1..i + w] == [n % 256];
      assert buf[i + w - 1] == n % 256;
    }
  }

  lemma SignedRoundTrip(n: int, w: nat)
    requires FitsSigned(n, w)
    ensures ToUnsigned(n, w) < Pow256(w) && ToSigned(ToUnsigned(n, w), w) == n
  {
  }

  /** A key above all others goes to the end. */
  lemma {:induction false} InsertAtEnd(d: seq<Value>, a: Value, b: Value)
    requires forall i :: 0 <= i < |d| ==> d[i].Pair? && Compare(d[i].first, a) < 0
    ensures Insert(d, a, b) == d + [Pair(a, b)]
  {
    if d != [] {
      InsertAtEnd(d[1..], a, b);
    }
  }

  lemma AscendingFront(d: seq<Value>)
    requires Ascending(d) && d != []
    ensures
      var n := |d| - 1;
      && Ascending(d[..n]) && d[n].Pair?
      && forall i :: 0 <= i < n ==> d[..n][i].Pair? && Compare(d[..n][i].first, d[n].first) < 0
  {
    var f := d[..|d| - 1];
    forall i | 0 <= i < |f| ensures f[i].Pair? && Compare(f[i].first, d[|f|].first) < 0 {
      assert f[i] == d[i];
    }
  }

  lemma InsertAllLast(d: seq<Value>)
    requires d != [] && d[|d| - 1].Pair?
    ensures
      var n := |d| - 1;
      InsertAll(d) == Insert(InsertAll(d[..n]), d[n].first, d[n].second)
  {
  }

  lemma {:induction false} InsertAllAscending(d: seq<Value>)
    requires Ascending(d)
    ensures InsertAll(d) == d
  {
    if d != [] {
      var n := |d| - 1;
      AscendingFront(d);
      InsertAllAscending(d[..n]);
      InsertAllLast(d);
      InsertAtEnd(d[..n], d[n].first, d[n].second);
      assert d == d[..n] + [Pair(d[n].first, d[n].second)];
    }
  }

  lemma CountRoundTrip(n: nat, b: Bytes, buf: Bytes, i: nat)
    requires n < WORD && Holds(buf, i, BigEndian(n, 4) + b)
    ensures ReadUnsigned(At(buf, i), 4) == (n, At(buf, i + 4)) && Holds(buf, i + 4, b)
  {
    assert Pow256(4) == WORD by { assert Pow256(2) == 65536; }
    HoldsParts(buf, i, BigEndian(n, 4), b);
    UnsignedRoundTrip(n, 4, buf, i);
  }

  lemma BoolRoundTrip(v: Value, buf: Bytes, i: nat)
    requires HasType(v, TBool) && Holds(buf, i, Encode(v, TBool))
    ensures Decode(TBool, At(buf, i)) == (v, At(buf, i + |Encode(v, TBool)|))
  {
    assert buf[i..i + 1][0] == buf[i];
  }

  lemma StringRoundTrip(v: Value, buf: Bytes, i: nat)
    requires HasType(v, TString) && Holds(buf, i, Encode(v, TString))
    ensures Decode(TString, At(buf, i)) == (v, At(buf, i + |Encode(v, TString)|))
  {
    CountRoundTrip(|v.s|, v.s, buf, i);
  }

  lemma IntRoundTrip(v: Value, w: nat, signed: bool, buf: Bytes, i: nat)
    requires HasType(v, TInt(w, signed)) && Holds(buf, i, Encode(v, TInt(w, signed)))
    ensures Decode(TInt(w, signed), At(buf, i)) == (v, At(buf, i + |Encode(v, TInt(w, signed))|))
  {
    if signed {
      SignedRoundTrip(v.n, w);
    }
    UnsignedRoundTrip(ToUnsigned(v.n, w), w, buf, i);
  }

  lemma ListDecoded(t: Type, items: seq<Value>, e: Type, buf: Bytes, i: nat, j: nat)
    requires t == TVec(e) || (t == TMap(e) && Ascending(items))
    requires ReadUnsigned(At(buf, i), 4) == (|items|, At(buf, i + 4))
    requires DecodeItems(e, |items|, At(buf, i + 4)) == (items, At(buf, j))
    ensures Decode(t, At(buf, i)) == (List(items), At(buf, j))
  {
    if t.TMap? {
      InsertAllAscending(items);
    }
  }

  lemma ItemDecoded(e: Type, items: seq<Value>, v: Value, r: Reader, r1: Reader, r2: Reader)
    requires DecodeItems(e, |items|, r) == (items, r1) && Decode(e, r1) == (v, r2)
    ensures DecodeItems(e, |items| + 1, r) == (items + [v], r2)
  {
  }

  lemma PairDecoded(k: Type, e: Type, x: Value, y: Value, r: Reader, r1: Reader, r2: Reader)
    requires Decode(k, r) == (x, r1) && Decode(e, r1) == (y, r2)
    ensures Decode(TPair(k, e), r) == (Pair(x, y), r2)
  {
  }

  /** b, the bytes of v, stands at i and ends at j. */
  predicate Spans(v: Value, t: Type, b: Bytes, buf: Bytes, i: nat, j: nat) {
    HasType(v, t) && b == Encode(v, t) && Holds(buf, i, b) && j == i + |b|
  }

  lemma {:induction false} Reads(v: Value, t: Type, b: Bytes, buf: Bytes, i: nat, j: nat)
    requires Spans(v, t, b, buf, i, j)
    ensures Decode(t, At(buf, i)) == (v, At(buf, j))
    decreases t, 1
  {
    match t {
      case TBool => BoolRoundTrip(v, buf, i);
      case TInt(w, signed) => IntRoundTrip(v, w, signed, buf, i);
      case TString => StringRoundTrip(v, buf, i);
      case TVec(e) => ListReads(v.items, t, e, EncodeItems(v.items, e), buf, i, j);
      case TPair(k, e) => PairReads(v.first, v.second, k, e, Encode(v.first, k), Encode(v.second, e), buf, i, j);
      case TMap(entry) => ListReads(v.items, t, entry, EncodeItems(v.items, entry), buf, i, j);
    }
  }

  lemma {:induction false} ListReads(items: seq<Value>, t: Type, e: Type, b: Bytes, buf: Bytes, i: nat, j: nat)
    requires t == TVec(e) || (t == TMap(e) && Ascending(items))
    requires AllHave(items, e) && |items| < WORD && b == EncodeItems(items, e)
    requires Holds(buf, i, BigEndian(|items|, 4) + b) && j == i + 4 + |b|
    ensures Decode(t, At(buf, i)) == (List(items), At(buf, j))
    decreases e, |items| + 4
  {
    CountRoundTrip(|items|, b, buf, i);
    ItemsRead(items, e, b, buf, i + 4, j);
    ListDecoded(t, items, e, buf, i, j);
  }

  lemma {:induction false} PairReads(x: Value, y: Value, k: Type, e: Type, a: Bytes, b: Bytes, buf: Bytes, i: nat, j: nat)
    requires HasType(x, k) && HasType(y, e) && a == Encode(x, k) && b == Encode(y, e)
    requires Holds(buf, i, a + b) && j == i + |a| + |b|
    ensures Decode(TPair(k, e), At(buf, i)) == (Pair(x, y), At(buf, j))
    decreases TPair(k, e), 0
  {
    HoldsParts(buf, i, a, b);
    Reads(x, k, a, buf, i, i + |a|);
    Reads(y, e, b, buf, i + |a|, j);
    PairDecoded(k, e, x, y, At(buf, i), At(buf, i + |a|), At(buf, j));
  }

  lemma {:induction false} ItemsRead(items: seq<Value>, e: Type, b: Bytes, buf: Bytes, i: nat, j: nat)
    requires AllHave(items, e) && b == EncodeItems(items, e) && Holds(buf, i, b) && j == i + |b|
    ensures DecodeItems(e, |items|, At(buf, i)) == (items, At(buf, j))
    decreases e, |items| + 3
  {
    if |items| == 0 {
      NoItems(items, e, buf, i);
    } else {
      var front, v := items[..|items| - 1], items[|items| - 1];
      var m := SplitLast(items, front, v, e, b, buf, i, j);
      ItemsRead(front, e, EncodeItems(front, e), buf, i, m);
      NextReads(front, v, e, Encode(v, e), buf, i, m, j);
      JoinLast(items, front, v);
    }
  }

  lemma JoinLast(items: seq<Value>, front: seq<Value>, v: Value)
    requires |items| > 0 && front == items[..|items| - 1] && v == items[|items| - 1]
    ensures front + [v] == items && |front| + 1 == |items|
  {
  }

  lemma NoItems(items: seq<Value>, e: Type, buf: Bytes, i: nat)
    requires |items| == 0
    ensures EncodeItems(items, e) == [] && DecodeItems(e, 0, At(buf, i)) == (items, At(buf, i))
  {
  }

  /** Where the last element's bytes begin. */
  lemma SplitLast(items: seq<Value>, front: seq<Value>, v: Value, e: Type, b: Bytes, buf: Bytes, i: nat, j: nat)
    returns (m: nat)
    requires AllHave(items, e) && |items| > 0 && front == items[..|items| - 1] && v == items[|items| - 1]
    requires b == EncodeItems(items, e) && Holds(buf, i, b) && j == i + |b|
    ensures AllHave(front, e)
    ensures Holds(buf, i, EncodeItems(front, e)) && m == i + |EncodeItems(front, e)|
    ensures Spans(v, e, Encode(v, e), buf, m, j)
  {
    EncodeLast(items, e);
    m := i + |EncodeItems(front, e)|;
    HoldsParts(buf, i, EncodeItems(front, e), Encode(v, e));
  }

  lemma {:induction false} NextReads(front: seq<Value>, v: Value, e: Type, b: Bytes, buf: Bytes, i: nat, j: nat, l: nat)
    requires Spans(v, e, b, buf, j, l)
    requires DecodeItems(e, |front|, At(buf, i)) == (front, At(buf, j))
    ensures DecodeItems(e, |front| + 1, At(buf, i)) == (front + [v], At(buf, l))
    decreases e, 2
  {
    Reads(v, e, b, buf, j, l);
    ItemDecoded(e, front, v, At(buf, i), At(buf, j), At(buf, l));
  }

  /** Every value survives the wire, wherever its bytes stand and whatever follows them. */
  lemma RoundTrip(v: Value, t: Type, buf: Bytes, i: nat)
    requires HasType(v, t) && Holds(buf, i, Encode(v, t))
    ensures Decode(t, At(buf, i)) == (v, At(buf, i + |Encode(v, t)|))
  {
    Reads(v, t, Encode(v, t), buf, i, i + |Encode(v, t)|);
  }

  lemma EncodeLast(items: seq<Value>, e: Type)
    requires AllHave(items, e) && items != []
    ensures
      var n := |items| - 1;
      AllHave(items[..n], e) && EncodeItems(items, e) == EncodeItems(items[..n], e) + Encode(items[n], e)
  {
  }

  // ---- argument lists ----

  predicate AllTyped(vs: seq<Value>, ts: seq<Type>) {
    |vs| == |ts| && forall i :: 0 <= i < |vs| ==> HasType(vs[i], ts[i])
  }

  function EncodeArgs(vs: seq<Value>, ts: seq<Type>): Bytes
    requires AllTyped(vs, ts)
  {
    if vs == [] then []
    else EncodeArgs(vs[..|vs| - 1], ts[..|vs| - 1]) + Encode(vs[|vs| - 1], ts[|vs| - 1])
  }

  function DecodeArgs(ts: seq<Type>, r: Reader): (seq<Value>, Reader) {
    if ts == [] then ([], r)
    else
      var (vs, r1) := DecodeArgs(ts[..|ts| - 1], r);
      var (v, r2) := Decode(ts[|ts| - 1], r1);
      (vs + [v], r2)
  }

  lemma ArgsLast(vs: seq<Value>, ts: seq<Type>)
    requires AllTyped(vs, ts) && vs != []
    ensures
      var n := |vs| - 1;
      && AllTyped(vs[..n], ts[..n]) && HasType(vs[n], ts[n])
      && EncodeArgs(vs, ts) == EncodeArgs(vs[..n], ts[..n]) + Encode(vs[n], ts[n])
  {
  }

  lemma ArgDecoded(ts: seq<Type>, vs: seq<Value>, v: Value, r: Reader, r1: Reader, r2: Reader)
    requires ts != [] && DecodeArgs(ts[..|ts| - 1], r) == (vs, r1) && Decode(ts[|ts| - 1], r1) == (v, r2)
    ensures DecodeArgs(ts, r) == (vs + [v], r2)
  {
  }

  /** Where the last argument's bytes begin. */
  lemma SplitLastArg(vs: seq<Value>, ts: seq<Type>, b: Bytes, buf: Bytes, i: nat, j: nat) returns (m: nat)
    requires AllTyped(vs, ts) && vs != [] && b == EncodeArgs(vs, ts) && Holds(buf, i, b) && j == i + |b|
    ensures
      var n := |vs| - 1;
      && AllTyped(vs[..n], ts[..n])
      && Holds(buf, i, EncodeArgs(vs[..n], ts[..n])) && m == i + |EncodeArgs(vs[..n], ts[..n])|
      && Spans(vs[n], ts[n], Encode(vs[n], ts[n]), buf, m, j)
  {
    var n := |vs| - 1;
    ArgsLast(vs, ts);
    m := i + |EncodeArgs(vs[..n], ts[..n])|;
    HoldsParts(buf, i, EncodeArgs(vs[..n], ts[..n]), Encode(vs[n], ts[n]));
  }

  lemma ArgReads(ts: seq<Type>, vs: seq<Value>, v: Value, b: Bytes, buf: Bytes, i: nat, m: nat, j: nat)
    requires ts != [] && Spans(v, ts[|ts| - 1], b, buf, m, j)
    requires DecodeArgs(ts[..|ts| - 1], At(buf, i)) == (vs, At(buf, m))
    ensures DecodeArgs(ts, At(buf, i)) == (vs + [v], At(buf, j))
  {
    Reads(v, ts[|ts| - 1], b, buf, m, j);
    ArgDecoded(ts, vs, v, At(buf, i), At(buf, m), At(buf, j));
  }

  lemma {:induction false} ArgsRead(vs: seq<Value>, ts: seq<Type>, b: Bytes, buf: Bytes, i: nat, j: nat)
    requires AllTyped(vs, ts) && b == EncodeArgs(vs, ts) && Holds(buf, i, b) && j == i + |b|
    ensures DecodeArgs(ts, At(buf, i)) == (vs, At(buf, j))
  {
    if vs != [] {
      var n := |vs| - 1;
      var m := SplitLastArg(vs, ts, b, buf, i, j);
      ArgsRead(vs[..n], ts[..n], EncodeArgs(vs[..n], ts[..n]), buf, i, m);
      ArgReads(ts, vs[..n], vs[n], Encode(vs[n], ts[n]), buf, i, m, j);
      assert vs == vs[..n] + [vs[n]];
    }
  }

  lemma ArgsRoundTrip(vs: seq<Value>, ts: seq<Type>, buf: Bytes, i: nat)
    requires AllTyped(vs, ts)
    requires Holds(buf, i, EncodeArgs(vs, ts))
    ensures DecodeArgs(ts, At(buf, i)) == (vs, At(buf, i + |EncodeArgs(vs, ts)|))
  {
    ArgsRead(vs, ts, EncodeArgs(vs, ts), buf, i, i + |EncodeArgs(vs, ts)|);
  }

  /** A whole argument list read back ends with okdone(). */
  lemma WholeListIsDone(header: Bytes, vs: seq<Value>, ts: seq<Type>)
    requires AllTyped(vs, ts)
    ensures
      var (got, r) := DecodeArgs(ts, At(header + EncodeArgs(vs, ts), |header|));
      got == vs && OkDone(r)
  {
    var buf := header + EncodeArgs(vs, ts);
    assert Holds(buf, |header|, EncodeArgs(vs, ts));
    ArgsRoundTrip(vs, ts, buf, |header|);
  }
}
