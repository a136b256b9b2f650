/** The client's acknowledgement window (`xid_rep_window_`): the list whose front is
    the xid the client piggybacks on every request as "I am finished with everything
    up to here", followed by the finished xids that are not yet contiguous. */
module AckWindow {

  ghost predicate Ascending(w: seq<nat>) {
    forall i, j :: 0 <= i < j < |w| ==> w[i] <= w[j]
  }

  /** First position whose element exceeds x: where `list::insert` puts x. */
  function Place(w: seq<nat>, x: nat): (p: nat)
    ensures p <= |w|
    ensures forall i :: 0 <= i < p ==> w[i] <= x
    ensures p < |w| ==> w[p] > x
  {
    if w == [] || w[0] > x then 0 else 1 + Place(w[1..], x)
  }

  function Insert(w: seq<nat>, x: nat): seq<nat> {
    var p := Place(w, x);
    w[..p] + [x] + w[p..]
  }

  /** First position holding the successor of v, or the length if there is none. */
  function PositionOf(w: seq<nat>, v: nat): (p: nat)
    ensures p <= |w|
    ensures forall i :: 0 <= i < p ==> w[i] != v
    ensures p < |w| ==> w[p] == v
  {
    if w == [] || w[0] == v then 0 else 1 + PositionOf(w[1..], v)
  }

  /** Drops the front as long as its successor is also in the window. */
  function Compress(w: seq<nat>): (r: seq<nat>)
    requires |w| > 0
    ensures |r| > 0
    decreases |w|
  {
    var p := PositionOf(w, w[0] + 1);
    if p == |w| then w else Compress(w[p..])
  }

  /** The window after the client learns that xid is finished. */
  function Update(w: seq<nat>, xid: nat): (r: seq<nat>)
    requires |w| > 0
    ensures |r| > 0
  {
    if xid <= w[0] then w else Compress(Insert(w, xid))
  }

  function ToSet(xids: seq<nat>): (fin: set<nat>)
    ensures forall x: nat :: x in fin <==> x in xids
  {
    if xids == [] then {} else
      assert xids == xids[..|xids| - 1] + [xids[|xids| - 1]];
      ToSet(xids[..|xids| - 1]) + {xids[|xids| - 1]}
  }

  function UpdateAll(w: seq<nat>, xids: seq<nat>): (r: seq<nat>)
    requires |w| > 0
    ensures |r| > 0
  {
    if xids == [] then w else Update(UpdateAll(w, xids[..|xids| - 1]), xids[|xids| - 1])
  }

  /** w says exactly which xids are in fin: all of 1..front are, front + 1 is not, and
      above the front the list holds precisely the members of fin. */
  ghost predicate Exact(w: seq<nat>, fin: set<nat>) {
    && |w| > 0
    && Ascending(w)
    && (forall x :: 1 <= x <= w[0] ==> x in fin)
    && w[0] + 1 !in fin
    && (forall x :: x > w[0] ==> (x in w <==> x in fin))
  }

  /** Like Exact, but the successor of the front may already be finished. */
  ghost predicate Covers(w: seq<nat>, fin: set<nat>) {
    && |w| > 0
    && Ascending(w)
    && (forall x :: 1 <= x <= w[0] ==> x in fin)
    && (forall x :: x > w[0] ==> (x in w <==> x in fin))
  }

  lemma InMiddle(a: seq<nat>, x: nat, b: seq<nat>, y: nat)
    ensures y in a + [x] + b <==> y in a + b || y == x
  {
    assert y in a + [x] + b <==> y in a + [x] || y in b;
  }

  lemma InsertMembers(w: seq<nat>, x: nat, y: nat)
    ensures y in Insert(w, x) <==> y in w || y == x
  {
    var p := Place(w, x);
    InMiddle(w[..p], x, w[p..], y);
    assert w[..p] + w[p..] == w;
  }

  lemma InsertAt(w: seq<nat>, x: nat, i: nat)
    requires i <= |w|
    ensures
      var p := Place(w, x);
      Insert(w, x)[i] == if i < p then w[i] else if i == p then x else w[i - 1]
  {
  }

  lemma InsertOrder(w: seq<nat>, x: nat, i: nat, j: nat)
    requires Ascending(w) && i < j <= |w|
    ensures Insert(w, x)[i] <= Insert(w, x)[j]
  {
    InsertAt(w, x, i);
    InsertAt(w, x, j);
  }

  lemma InsertAscending(w: seq<nat>, x: nat)
    requires Ascending(w)
    ensures Ascending(Insert(w, x))
  {
    forall i, j | 0 <= i < j < |Insert(w, x)| ensures Insert(w, x)[i] <= Insert(w, x)[j] {
      InsertOrder(w, x, i, j);
    }
  }

  lemma InsertKeepsOrder(w: seq<nat>, x: nat)
    requires Ascending(w)
    ensures Ascending(Insert(w, x))
    ensures forall y :: y in Insert(w, x) <==> y in w || y == x
  {
    InsertAscending(w, x);
    forall y: nat ensures y in Insert(w, x) <==> y in w || y == x {
      InsertMembers(w, x, y);
    }
  }

  lemma {:induction false} CompressExact(w: seq<nat>, fin: set<nat>)
    requires Covers(w, fin)
    ensures Exact(Compress(w), fin)
    ensures Compress(w)[0] >= w[0]
    decreases |w|
  {
    var p := PositionOf(w, w[0] + 1);
    if p == |w| {
      assert w[0] + 1 !in w;
    } else {
      var v := w[p..];
      assert v[0] == w[0] + 1;
      assert w[p] in w;
      forall x | x > v[0] ensures x in v <==> x in w {
        if x in w {
          var i :| 0 <= i < |w| && w[i] == x;
          assert i > p;
          assert v[i - p] == x;
        }
      }
      CompressExact(v, fin);
    }
  }

  /** One update keeps the window exact, whatever xid arrives and however often. */
  lemma UpdateExact(w: seq<nat>, fin: set<nat>, xid: nat)
    requires Exact(w, fin) && xid >= 1
    ensures Exact(Update(w, xid), fin + {xid})
    ensures Update(w, xid)[0] >= w[0]
  {
    if xid <= w[0] {
      assert fin + {xid} == fin;
    } else {
      InsertKeepsOrder(w, xid);
      assert Insert(w, xid)[0] == w[0];
      CompressExact(Insert(w, xid), fin + {xid});
    }
  }

  /** After any sequence of updates, with repeats and in any order, the window that
      started as [0] describes exactly the set of xids that were reported. */
  lemma {:induction false} UpdateAllExact(xids: seq<nat>)
    requires forall i :: 0 <= i < |xids| ==> xids[i] >= 1
    ensures Exact(UpdateAll([0], xids), ToSet(xids))
  {
    if xids != [] {
      var k := |xids| - 1;
      var front, x := xids[..k], xids[k];
      UpdateAllExact(front);
      UpdateExact(UpdateAll([0], front), ToSet(front), x);
    }
  }

  /** The front of an exact window is the largest F such that all of 1..F is finished. */
  lemma FrontIsLargest(w: seq<nat>, fin: set<nat>, f: nat)
    requires Exact(w, fin)
    ensures (forall x :: 1 <= x <= f ==> x in fin) <==> f <= w[0]
  {
    if f > w[0] {
      assert w[0] + 1 !in fin;
    }
  }

  /** The order in which replies arrive does not matter to what is acknowledged. */
  lemma FrontDependsOnSetOnly(xids: seq<nat>, ys: seq<nat>)
    requires forall i :: 0 <= i < |xids| ==> xids[i] >= 1
    requires forall i :: 0 <= i < |ys| ==> ys[i] >= 1
    requires ToSet(xids) == ToSet(ys)
    ensures UpdateAll([0], xids)[0] == UpdateAll([0], ys)[0]
  {
    UpdateAllExact(xids);
    UpdateAllExact(ys);
    FrontIsLargest(UpdateAll([0], xids), ToSet(xids), UpdateAll([0], ys)[0]);
    FrontIsLargest(UpdateAll([0], ys), ToSet(ys), UpdateAll([0], xids)[0]);
  }

  // What the compression loop of UpdateXidRep needs.

  lemma CompressStops(w: seq<nat>)
    requires |w| > 0 && w[0] + 1 !in w
    ensures Compress(w) == w
  {
  }

  /** The elements the iterator has passed hold no successor of the front. */
  ghost predicate Passed(w: seq<nat>, it: nat) {
    |w| > 0 && forall k :: 0 < k < it && k < |w| ==> w[k] != w[0] + 1
  }

  lemma PositionIs(w: seq<nat>, v: nat, p: nat)
    requires p < |w| && w[p] == v && forall i :: 0 <= i < p ==> w[i] != v
    ensures PositionOf(w, v) == p
  {
  }

  lemma TailAscending(w: seq<nat>)
    requires Ascending(w) && |w| > 0
    ensures Ascending(w[1..])
  {
  }

  lemma PassedTail(w: seq<nat>, it: nat)
    requires |w| > 1 && w[1] == w[0] && 1 < it < |w| && Passed(w, it)
    ensures Passed(w[1..], it - 1)
    ensures forall i :: 0 <= i < it - 1 ==> w[1..][i] != w[1..][0] + 1
  {
    var v := w[1..];
    forall i | 0 <= i < it - 1 ensures v[i] != v[0] + 1 {
      assert v[i] == w[i + 1];
    }
  }

  lemma CompressSkips(w: seq<nat>, it: nat)
    requires 0 < it < |w| && w[it] == w[0] + 1 && forall i :: 0 <= i < it ==> w[i] != w[0] + 1
    ensures Compress(w) == Compress(w[it..])
  {
    PositionIs(w, w[0] + 1, it);
    CompressOnce(w);
  }

  lemma CompressOnce(w: seq<nat>)
    requires |w| > 0
    ensures
      var p := PositionOf(w, w[0] + 1);
      p < |w| ==> p > 0 && Compress(w) == Compress(w[p..])
  {
  }

  lemma EqualsFront(w: seq<nat>, it: nat)
    requires Ascending(w) && 1 < it < |w| && w[it] == w[0] + 1 && Passed(w, it)
    ensures w[1] == w[0]
  {
    assert w[0] <= w[1] <= w[it];
  }

  /** Popping the front is a step of Compress while its successor lies at `it` and
      everything before `it` still equals the front. */
  lemma CompressPops(w: seq<nat>, it: nat)
    requires Ascending(w) && 0 < it < |w| && w[it] == w[0] + 1 && Passed(w, it)
    ensures Compress(w) == Compress(w[1..])
    ensures Ascending(w[1..]) && Passed(w[1..], it - 1)
  {
    TailAscending(w);
    CompressSkips(w, it);
    if it > 1 {
      EqualsFront(w, it);
      PassedTail(w, it);
      CompressSkips(w[1..], it - 1);
      assert w[1..][it - 1..] == w[it..];
    }
  }
}
