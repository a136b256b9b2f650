/** Whatever bytes arrive, unmarshalling yields a value of the type that was asked for; in
    particular a map with its keys in strict order, of which the last entry sent for a key
    counts.  Also, which byte stands where on the wire. */
module CodecTypes {
  import opened Basics
  import opened Codec

  // ---- the order of keys is total ----

  lemma {:induction false} BytesOrder(a: Bytes, b: Bytes)
    ensures CompareBytes(a, b) == 0 <==> a == b
    ensures CompareBytes(b, a) == -CompareBytes(a, b)
  {
    if a != [] && b != [] && a[0] == b[0] {
      BytesOrder(a[1..], b[1..]);
      assert a == [a[0]] + a[1..] && b == [b[0]] + b[1..];
    }
  }

  lemma {:induction false} BytesChain(a: Bytes, b: Bytes, c: Bytes)
    requires CompareBytes(a, b) < 0 && CompareBytes(b, c) < 0
    ensures CompareBytes(a, c) < 0
  {
    if a != [] && b != [] && c != [] && a[0] == b[0] == c[0] {
      BytesChain(a[1..], b[1..], c[1..]);
    }
  }

  /** Values of one type compare as equal only if they are, and the other way round with the
      opposite sign. */
  lemma {:induction false} Order(a: Value, b: Value, t: Type)
    requires HasType(a, t) && HasType(b, t)
    ensures Compare(a, b) == 0 <==> a == b
    ensures Compare(b, a) == -Compare(a, b)
    decreases t, 0, 0
  {
    match t {
      case TBool =>
      case TInt(_, _) =>
      case TString => BytesOrder(a.s, b.s);
      case TVec(e) => ListsOrder(a.items, b.items, e);
      case TPair(k, e) => Order(a.first, b.first, k); Order(a.second, b.second, e);
      case TMap(entry) => ListsOrder(a.items, b.items, entry);
    }
  }

  lemma {:induction false} ListsOrder(s: seq<Value>, t: seq<Value>, e: Type)
    requires AllHave(s, e) && AllHave(t, e)
    ensures CompareLists(s, t) == 0 <==> s == t
    ensures CompareLists(t, s) == -CompareLists(s, t)
    decreases e, 1, |s|
  {
    if s != [] && t != [] {
      Order(s[0], t[0], e);
      ListsOrder(s[1..], t[1..], e);
      assert s == [s[0]] + s[1..] && t == [t[0]] + t[1..];
    }
  }

  lemma {:induction false} Chain(a: Value, b: Value, c: Value, t: Type)
    requires HasType(a, t) && HasType(b, t) && HasType(c, t)
    requires Compare(a, b) < 0 && Compare(b, c) < 0
    ensures Compare(a, c) < 0
    decreases t, 1, 0
  {
    match t {
      case TBool =>
      case TInt(_, _) =>
      case TString => BytesChain(a.s, b.s, c.s);
      case TVec(e) => ListsChain(a.items, b.items, c.items, e);
      case TPair(k, e) => PairsChain(a, b, c, k, e);
      case TMap(entry) => ListsChain(a.items, b.items, c.items, entry);
    }
  }

  lemma {:induction false} PairsChain(a: Value, b: Value, c: Value, k: Type, e: Type)
    requires HasType(a, TPair(k, e)) && HasType(b, TPair(k, e)) && HasType(c, TPair(k, e))
    requires Compare(a, b) < 0 && Compare(b, c) < 0
    ensures Compare(a, c) < 0
    decreases TPair(k, e), 0, 0
  {
    Order(a.first, b.first, k);
    Order(b.first, c.first, k);
    if Compare(a.first, b.first) < 0 && Compare(b.first, c.first) < 0 {
      Chain(a.first, b.first, c.first, k);
    } else if a.first == b.first == c.first {
      Chain(a.second, b.second, c.second, e);
    }
  }

  lemma {:induction false} ListsChain(s: seq<Value>, t: seq<Value>, u: seq<Value>, e: Type)
    requires AllHave(s, e) && AllHave(t, e) && AllHave(u, e)
    requires CompareLists(s, t) < 0 && CompareLists(t, u) < 0
    ensures CompareLists(s, u) < 0
    decreases e, 1, |s|
  {
    if s != [] && t != [] && u != [] {
      Order(s[0], t[0], e);
      Order(t[0], u[0], e);
      if Compare(s[0], t[0]) < 0 && Compare(t[0], u[0]) < 0 {
        Chain(s[0], t[0], u[0], e);
      } else if s[0] == t[0] == u[0] {
        ListsChain(s[1..], t[1..], u[1..], e);
      }
    }
  }

  /** Numbers in ascending order, false before true, strings as in a dictionary. */
  lemma KeyOrder(x: int, y: int, a: Bytes, b: Bytes)
    ensures Compare(Num(x), Num(y)) < 0 <==> x < y
    ensures Compare(Bool(false), Bool(true)) < 0
    ensures a < b ==> Compare(Str(a), Str(b)) < 0
  {
    if a < b {
      PrefixIsLess(a, b);
    }
  }

  lemma {:induction false} PrefixIsLess(a: Bytes, b: Bytes)
    requires a < b
    ensures CompareBytes(a, b) < 0
  {
    if a != [] {
      PrefixIsLess(a[1..], b[1..]);
    }
  }

  /** The first byte that differs decides. */
  lemma {:induction false} FirstDifference(p: Bytes, x: Byte, a: Bytes, y: Byte, b: Bytes)
    requires x < y
    ensures Compare(Str(p + [x] + a), Str(p + [y] + b)) < 0
  {
    var s, t := p + [x] + a, p + [y] + b;
    if p != [] {
      FirstDifference(p[1..], x, a, y, b);
      assert s[1..] == p[1..] + [x] + a && t[1..] == p[1..] + [y] + b;
    }
  }

  // ---- maps ----

  /** The value stored for key x. */
  function Lookup(d: seq<Value>, x: Value): Option<Value> {
    if d == [] then None
    else if d[0].Pair? && d[0].first == x then Some(d[0].second)
    else Lookup(d[1..], x)
  }

  /** d is a map from type k to type e. */
  predicate IsMap(d: seq<Value>, k: Type, e: Type) {
    Ascending(d) && AllHave(d, TPair(k, e))
  }

  lemma TailIsMap(d: seq<Value>, k: Type, e: Type)
    requires IsMap(d, k, e) && d != []
    ensures IsMap(d[1..], k, e)
  {
  }

  /** Every key of the rest is above the first one. */
  predicate AllAbove(d: seq<Value>, a: Value) {
    forall i :: 0 <= i < |d| ==> d[i].Pair? && Compare(a, d[i].first) < 0
  }

  lemma ConsIsMap(p: Value, d: seq<Value>, k: Type, e: Type)
    requires HasType(p, TPair(k, e)) && IsMap(d, k, e) && AllAbove(d, p.first)
    ensures IsMap([p] + d, k, e)
  {
  }

  lemma AboveChain(d: seq<Value>, a: Value, b: Value, k: Type, e: Type)
    requires IsMap(d, k, e) && HasType(a, k) && HasType(b, k) && Compare(a, b) < 0 && AllAbove(d, b)
    ensures AllAbove(d, a)
  {
    forall i | 0 <= i < |d| ensures Compare(a, d[i].first) < 0 {
      assert HasType(d[i], TPair(k, e));
      Chain(a, b, d[i].first, k);
    }
  }

  lemma TailIsAbove(d: seq<Value>, k: Type, e: Type)
    requires IsMap(d, k, e) && d != []
    ensures HasType(d[0], TPair(k, e)) && AllAbove(d[1..], d[0].first)
  {
  }

  lemma {:induction false} InsertAbove(d: seq<Value>, a: Value, b: Value, x: Value)
    requires AllAbove(d, x) && Compare(x, a) < 0
    ensures AllAbove(Insert(d, a, b), x)
  {
    if d != [] && Compare(d[0].first, a) < 0 {
      InsertAbove(d[1..], a, b, x);
    }
  }

  /** Insertion keeps a map a map. */
  lemma {:induction false} InsertKeepsMap(d: seq<Value>, a: Value, b: Value, k: Type, e: Type)
    requires IsMap(d, k, e) && HasType(a, k) && HasType(b, e)
    ensures IsMap(Insert(d, a, b), k, e) && |Insert(d, a, b)| <= |d| + 1
  {
    if d != [] {
      TailIsMap(d, k, e);
      TailIsAbove(d, k, e);
      Order(d[0].first, a, k);
      var c := Compare(d[0].first, a);
      if c < 0 {
        InsertKeepsMap(d[1..], a, b, k, e);
        InsertAbove(d[1..], a, b, d[0].first);
        ConsIsMap(d[0], Insert(d[1..], a, b), k, e);
      } else if c == 0 {
        ConsIsMap(Pair(a, b), d[1..], k, e);
      } else {
        AboveChain(d[1..], a, d[0].first, k, e);
        ConsIsMap(Pair(a, b), d, k, e);
      }
    } else {
      ConsIsMap(Pair(a, b), [], k, e);
    }
  }

  /** Above a key there is nothing stored for it. */
  lemma {:induction false} NotAbove(d: seq<Value>, x: Value, k: Type, e: Type)
    requires IsMap(d, k, e) && HasType(x, k) && AllAbove(d, x)
    ensures Lookup(d, x) == None
  {
    if d != [] {
      TailIsMap(d, k, e);
      TailIsAbove(d, k, e);
      Order(x, d[0].first, k);
      NotAbove(d[1..], x, k, e);
    }
  }

  /** `d[a] = b`: key a has the value b afterwards, whatever it had, and all others what they had. */
  lemma {:induction false} InsertLookup(d: seq<Value>, a: Value, b: Value, k: Type, e: Type, x: Value)
    requires IsMap(d, k, e) && HasType(a, k) && HasType(b, e) && HasType(x, k)
    ensures Lookup(Insert(d, a, b), x) == if x == a then Some(b) else Lookup(d, x)
  {
    if d != [] {
      TailIsMap(d, k, e);
      TailIsAbove(d, k, e);
      Order(d[0].first, a, k);
      var c := Compare(d[0].first, a);
      if c < 0 {
        InsertLookup(d[1..], a, b, k, e, x);
        assert ([d[0]] + Insert(d[1..], a, b))[1..] == Insert(d[1..], a, b);
      } else if c == 0 {
        assert ([Pair(a, b)] + d[1..])[1..] == d[1..];
      } else {
        assert ([Pair(a, b)] + d)[1..] == d;
      }
    }
  }

  /** The entries in the order they were sent: the last one for a key counts. */
  function LastFor(entries: seq<Value>, x: Value): Option<Value> {
    if entries == [] then None
    else
      var p := entries[|entries| - 1];
      if p.Pair? && p.first == x then Some(p.second) else LastFor(entries[..|entries| - 1], x)
  }

  lemma {:induction false} InsertAllIsMap(entries: seq<Value>, k: Type, e: Type)
    requires AllHave(entries, TPair(k, e))
    ensures IsMap(InsertAll(entries), k, e) && |InsertAll(entries)| <= |entries|
  {
    if entries != [] {
      var n := |entries| - 1;
      assert HasType(entries[n], TPair(k, e));
      InsertAllIsMap(entries[..n], k, e);
      InsertKeepsMap(InsertAll(entries[..n]), entries[n].first, entries[n].second, k, e);
    }
  }

  lemma {:induction false} InsertAllLookup(entries: seq<Value>, k: Type, e: Type, x: Value)
    requires AllHave(entries, TPair(k, e)) && HasType(x, k)
    ensures Lookup(InsertAll(entries), x) == LastFor(entries, x)
  {
    if entries != [] {
      var n := |entries| - 1;
      assert HasType(entries[n], TPair(k, e));
      InsertAllIsMap(entries[..n], k, e);
      InsertAllLookup(entries[..n], k, e, x);
      InsertLookup(InsertAll(entries[..n]), entries[n].first, entries[n].second, k, e, x);
    }
  }

  // ---- every value that is read has its type ----

  /** The types there are operators for. */
  predicate Marshallable(t: Type) {
    match t
    case TBool => true
    case TString => true
    case TInt(w, signed) => w in {1, 2, 4, 8} && (w == 8 ==> !signed)
    case TVec(e) => Marshallable(e)
    case TPair(k, e) => Marshallable(k) && Marshallable(e)
    case TMap(entry) => entry.TPair? && Marshallable(entry)
  }

  lemma CastFits(u: nat, w: nat)
    requires u < Pow256(w)
    ensures FitsSigned(ToSigned(u, w), w)
  {
  }

  lemma CountFits(r: Reader)
    ensures ReadUnsigned(r, 4).0 < WORD
  {
    assert Pow256(2) == 65536 && Pow256(4) == WORD;
  }

  /** Whatever the bytes, and whether or not they suffice. */
  lemma {:induction false} DecodeHasType(t: Type, r: Reader)
    requires Marshallable(t)
    ensures HasType(Decode(t, r).0, t)
    decreases t, 0
  {
    CountFits(r);
    match t {
      case TBool =>
      case TInt(w, signed) => CastFits(ReadUnsigned(r, w).0, w);
      case TString =>
      case TVec(e) =>
        var (n, r1) := ReadUnsigned(r, 4);
        DecodedItemsHaveType(e, n, r1);
      case TPair(k, e) =>
        DecodeHasType(k, r);
        DecodeHasType(e, Decode(k, r).1);
      case TMap(entry) =>
        var (n, r1) := ReadUnsigned(r, 4);
        DecodedItemsHaveType(entry, n, r1);
        InsertAllIsMap(DecodeItems(entry, n, r1).0, entry.key, entry.val);
    }
  }

  lemma {:induction false} DecodedItemsHaveType(e: Type, n: nat, r: Reader)
    requires Marshallable(e)
    ensures AllHave(DecodeItems(e, n, r).0, e)
    decreases e, n + 1
  {
    if n > 0 {
      DecodedItemsHaveType(e, n - 1, r);
      DecodeHasType(e, DecodeItems(e, n - 1, r).1);
    }
  }

  /** Any byte but zero reads as true. */
  lemma BoolReads(r: Reader)
    ensures Decode(TBool, r).0 == Bool(r.ind < |r.buf| && r.buf[r.ind] != 0)
  {
  }

  /** A string reads as exactly the bytes its length announces; if they are not there, it is
      empty, and the reader has failed and stands behind the length. */
  lemma StringReads(r: Reader)
    requires r.ok && r.ind + 4 <= |r.buf|
    ensures
      var (n, r1) := ReadUnsigned(r, 4);
      var (v, r') := Decode(TString, r);
      && v.Str? && (r'.ok <==> r1.ind + n <= |r.buf|)
      && (r'.ok ==> v.s == r.buf[r1.ind..r1.ind + n] && r'.ind == r1.ind + n)
      && (!r'.ok ==> v.s == [] && r'.ind == r1.ind)
      && r1.ind == r.ind + 4
  {
    FourAhead(r);
  }

  lemma FourAhead(r: Reader)
    requires r.ok && r.ind + 4 <= |r.buf|
    ensures ReadUnsigned(r, 4).1 == r.(ind := r.ind + 4)
  {
    assert ReadUnsigned(r, 1).1 == r.(ind := r.ind + 1);
    assert ReadUnsigned(r, 2).1 == r.(ind := r.ind + 2);
    assert ReadUnsigned(r, 3).1 == r.(ind := r.ind + 3);
  }

  // ---- which byte stands where ----

  /** Byte i of w is the digit of weight 256 to the w - 1 - i: network byte order. */
  lemma {:induction false} DigitAt(n: nat, w: nat, i: nat)
    requires i < w
    ensures BigEndian(n, w)[i] == n / Pow256(w - 1 - i) % 256
  {
    if i < w - 1 {
      DigitAt(n / 256, w - 1, i);
      DivideTwice(n, 256, Pow256(w - 2 - i));
    }
  }

  /** Two's complement: the unsigned number that is congruent. */
  lemma CastIs(n: int, w: nat)
    requires FitsSigned(n, w)
    ensures ToUnsigned(n, w) == if n >= 0 then n else Pow256(w) + n
  {
  }

  /** What each type looks like on the wire. */
  lemma Layout(v: Value, t: Type)
    requires HasType(v, t)
    ensures t.TBool? ==> Encode(v, t) == [if v == Bool(true) then 1 else 0]
    ensures t.TInt? ==> |Encode(v, t)| == t.width
    ensures t.TString? ==> Encode(v, t)[..4] == BigEndian(|v.s|, 4) && Encode(v, t)[4..] == v.s
    ensures t.TVec? || t.TMap? ==> |Encode(v, t)| >= 4 && Encode(v, t)[..4] == BigEndian(|v.items|, 4)
    ensures t.TPair? ==> Encode(v.first, t.key) <= Encode(v, t) && Encode(v, t)[|Encode(v.first, t.key)|..] == Encode(v.second, t.val)
  {
  }
}
