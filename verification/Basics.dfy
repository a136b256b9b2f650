/** Bytes and optional values, shared by every part of the model. */
module Basics {

  type Byte = x: int | 0 <= x < 256
  type Bytes = seq<Byte>

  const WORD: nat := 0x1_0000_0000

  type nat32 = x: nat | x < WORD

  datatype Option<+T> = None | Some(value: T)

  // ---- quotients ----

  lemma QuotientIs(n: nat, d: nat, q: nat, r: nat)
    requires d > 0 && n == q * d + r && r < d
    ensures n / d == q
  {
    var q' := n / d;
    assert n == q' * d + n % d;
    if q' > q {
      Times(q + 1, q', d);
    } else if q' < q {
      Times(q' + 1, q, d);
    }
  }

  lemma Times(a: nat, b: nat, d: nat)
    requires a <= b
    ensures a * d <= b * d
  {
  }

  lemma Divided(n: nat, c: nat)
    requires c > 0
    ensures n == n / c * c + n % c && n % c < c
  {
  }

  lemma Regroup(q: nat, p: nat, r: nat, c: nat)
    ensures (q * p + r) * c == q * (c * p) + r * c
  {
    assert (q * p + r) * c == q * p * c + r * c;
    assert q * p * c == q * (p * c);
  }

  lemma Below(r: nat, p: nat, c: nat, s: nat)
    requires r < p && s < c
    ensures r * c + s < c * p
  {
    Times(r + 1, p, c);
    assert (r + 1) * c == r * c + c;
  }

  lemma Parts(n: nat, c: nat, p: nat, m: nat, s: nat, q: nat, r: nat)
    requires n == m * c + s && s < c && m == q * p + r && r < p
    ensures n == q * (c * p) + (r * c + s) && r * c + s < c * p
  {
    Regroup(q, p, r, c);
    Below(r, p, c, s);
  }

  /** Dividing by c and then by p. */
  lemma DivideTwice(n: nat, c: nat, p: nat)
    requires c > 0 && p > 0
    ensures c * p > 0 && n / c / p == n / (c * p)
  {
    var m, s := n / c, n % c;
    var q, r := m / p, m % p;
    Divided(n, c);
    Divided(m, p);
    Parts(n, c, p, m, s, q, r);
    QuotientIs(n, c * p, q, r * c + s);
  }
}
