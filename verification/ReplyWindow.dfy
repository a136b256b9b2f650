/** The server's per-client window of remembered requests (`reply_window_[clt_nonce]`). */
module ReplyWindow {
  import opened Basics
  import opened RpcTypes

  /** `reply_t`: `reply` is None while `cb_present` is false. */
  datatype Entry = Entry(xid: nat, reply: Option<Reply>)

  /** `rpcstate_t`; Done carries the remembered reply. */
  datatype Status = New | InProgress | Done(reply: Reply) | Forgotten

  /** Every window the server ever builds is strictly ascending in xid. */
  ghost predicate Sorted(w: seq<Entry>) {
    forall i, j :: 0 <= i < j < |w| ==> w[i].xid < w[j].xid
  }

  /** The window as a finite map from xid to what is remembered about it. */
  ghost function Entries(w: seq<Entry>): map<nat, Option<Reply>> {
    if w == [] then map[] else Entries(w[1..])[w[0].xid := w[0].reply]
  }

  /** First position with this xid, or the length. */
  function Find(w: seq<Entry>, xid: nat): (p: nat)
    ensures p <= |w|
    ensures forall i :: 0 <= i < p ==> w[i].xid != xid
    ensures p < |w| ==> w[p].xid == xid
  {
    if w == [] || w[0].xid == xid then 0 else 1 + Find(w[1..], xid)
  }

  /** Puts a fresh entry before the first one with a greater xid. */
  function Admit(w: seq<Entry>, xid: nat): (r: seq<Entry>)
    ensures |r| == |w| + 1
    ensures r[0] == if w == [] || w[0].xid > xid then Entry(xid, None) else w[0]
  {
    if w == [] || w[0].xid > xid then [Entry(xid, None)] + w
    else [w[0]] + Admit(w[1..], xid)
  }

  /** Erases the entries before the first one with xid >= xidRep.  That one stays. */
  function Trim(w: seq<Entry>, xidRep: nat): seq<Entry> {
    if w == [] || w[0].xid >= xidRep then w else Trim(w[1..], xidRep)
  }

  /** What `checkduplicate_and_update` answers. */
  function Classify(w: seq<Entry>, xid: nat): Status {
    var p := Find(w, xid);
    if p < |w| then
      if w[p].reply.Some? then Done(w[p].reply.value) else InProgress
    else if |w| > 0 && xid < w[0].xid then Forgotten
    else New
  }

  /** The window `checkduplicate_and_update` leaves: only a NEW request changes it. */
  function Check(w: seq<Entry>, xid: nat, xidRep: nat): seq<Entry> {
    if Classify(w, xid).New? then Trim(Admit(w, xid), xidRep) else w
  }

  /** `add_reply`: every entry with this xid remembers the reply. */
  function Store(w: seq<Entry>, xid: nat, reply: Reply): (r: seq<Entry>)
    ensures |r| == |w|
    ensures forall i :: 0 <= i < |w| ==>
      r[i] == if w[i].xid == xid then Entry(xid, Some(reply)) else w[i]
  {
    if w == [] then [] else
      [if w[0].xid == xid then Entry(xid, Some(reply)) else w[0]] + Store(w[1..], xid, reply)
  }

  // ---- meaning of the window operations on its map view ----

  lemma {:induction false} EntriesAt(w: seq<Entry>, i: nat)
    requires Sorted(w) && i < |w|
    ensures w[i].xid in Entries(w) && Entries(w)[w[i].xid] == w[i].reply
  {
    if i > 0 {
      EntriesAt(w[1..], i - 1);
    }
  }

  lemma {:induction false} EntriesKeys(w: seq<Entry>, xid: nat)
    requires Sorted(w)
    ensures xid in Entries(w) <==> Find(w, xid) < |w|
    ensures xid in Entries(w) ==> Entries(w)[xid] == w[Find(w, xid)].reply
    ensures xid in Entries(w) ==> |w| > 0 && w[0].xid <= xid
  {
    if w != [] {
      EntriesKeys(w[1..], xid);
    }
  }

  /** The answer, read off the map view and the front. */
  lemma ClassifyMeaning(w: seq<Entry>, xid: nat)
    requires Sorted(w)
    ensures Classify(w, xid).New? <==> xid !in Entries(w) && (w == [] || w[0].xid <= xid)
    ensures Classify(w, xid).Forgotten? <==> w != [] && xid < w[0].xid
    ensures Classify(w, xid).InProgress? <==> xid in Entries(w) && Entries(w)[xid].None?
    ensures Classify(w, xid).Done? <==> xid in Entries(w) && Entries(w)[xid].Some?
    ensures Classify(w, xid).Done? ==> Entries(w)[xid] == Some(Classify(w, xid).reply)
  {
    EntriesKeys(w, xid);
  }

  lemma {:induction false} AdmitMeaning(w: seq<Entry>, xid: nat)
    requires Sorted(w) && xid !in Entries(w)
    ensures Sorted(Admit(w, xid))
    ensures Entries(Admit(w, xid)) == Entries(w)[xid := None]
  {
    var r := Admit(w, xid);
    if w == [] || w[0].xid > xid {
      assert r[1..] == w;
    } else {
      var v := w[1..];
      EntriesAt(w, 0);
      AdmitMeaning(v, xid);
      assert r[1..] == Admit(v, xid);
      assert forall j :: 0 < j < |r| ==> r[j] == Admit(v, xid)[j - 1];
      assert Admit(v, xid)[0].xid > w[0].xid;
      SortedCons(r);
    }
  }

  lemma SortedCons(w: seq<Entry>)
    requires |w| > 1 && Sorted(w[1..]) && w[0].xid < w[1].xid
    ensures Sorted(w)
  {
    forall i, j | 0 <= i < j < |w| ensures w[i].xid < w[j].xid {
      assert w[1..][j - 1] == w[j];
      if i > 0 {
        assert w[1..][i - 1] == w[i];
      } else {
        assert w[1..][0] == w[1];
      }
    }
  }

  /** Where the insertion loop puts the entry. */
  lemma {:induction false} AdmitSplits(w: seq<Entry>, xid: nat, p: nat)
    requires p <= |w|
    requires forall i :: 0 <= i < p ==> w[i].xid <= xid
    requires p < |w| ==> w[p].xid > xid
    ensures Admit(w, xid) == w[..p] + [Entry(xid, None)] + w[p..]
  {
    if p > 0 {
      AdmitSplits(w[1..], xid, p - 1);
      assert w[1..][..p - 1] == w[1..p];
    }
  }

  lemma {:induction false} TrimMeaning(w: seq<Entry>, xidRep: nat)
    requires Sorted(w)
    ensures Sorted(Trim(w, xidRep))
    ensures Entries(Trim(w, xidRep)) == map x | x in Entries(w) && x >= xidRep :: Entries(w)[x]
    ensures Trim(w, xidRep) != [] ==> Trim(w, xidRep)[0].xid >= xidRep && w != [] && Trim(w, xidRep)[0].xid >= w[0].xid
  {
    if w == [] {
    } else if w[0].xid >= xidRep {
      forall x | x in Entries(w) ensures x >= xidRep {
        EntriesKeys(w, x);
      }
    } else {
      TrimMeaning(w[1..], xidRep);
      forall x | x in Entries(w[1..]) ensures x != w[0].xid {
        EntriesKeys(w[1..], x);
      }
    }
  }

  /** A NEW request enters the window, the entries it acknowledges leave, nothing else
      changes, and the front only moves up. */
  lemma CheckMeaning(w: seq<Entry>, xid: nat, xidRep: nat)
    requires Sorted(w) && xidRep < xid && Classify(w, xid).New?
    ensures
      var w' := Check(w, xid, xidRep);
      && Sorted(w') && w' != []
      && Entries(w') == (map x | x in Entries(w) && x >= xidRep :: Entries(w)[x])[xid := None]
      && xidRep <= w'[0].xid <= xid
      && (w != [] ==> w[0].xid <= w'[0].xid)
      && (w != [] && w[0].xid >= xidRep ==> w'[0].xid == w[0].xid)
      && w'[0].xid in Entries(w')
  {
    ClassifyMeaning(w, xid);
    AdmitMeaning(w, xid);
    var v := Admit(w, xid);
    TrimMeaning(v, xidRep);
    assert xid in Entries(Trim(v, xidRep));
    EntriesKeys(Trim(v, xidRep), xid);
    EntriesAt(Trim(v, xidRep), 0);
  }

  lemma {:induction false} StoreMeaning(w: seq<Entry>, xid: nat, reply: Reply)
    requires Sorted(w)
    ensures Sorted(Store(w, xid, reply))
    ensures Entries(Store(w, xid, reply)) == if xid in Entries(w) then Entries(w)[xid := Some(reply)] else Entries(w)
  {
    if w != [] {
      var v := w[1..];
      StoreMeaning(v, xid, reply);
      assert Store(w, xid, reply)[1..] == Store(v, xid, reply);
      EntriesKeys(v, w[0].xid);
    }
  }

  // ---- when an admission cuts off requests that are still outstanding ----

  /** Trimming keeps the entry equal to xidRep as a sentinel; without a sentinel the new
      front may lie above xids the client is still waiting for. */
  ghost predicate HasSentinel(w: seq<Entry>, xid: nat, xidRep: nat) {
    || (w != [] && w[0].xid >= xidRep)
    || xidRep in Entries(w)
    || xidRep + 1 in Entries(w)
    || xid == xidRep + 1
  }

  /** Without a sentinel, the xid right above xidRep is admissible before and not after. */
  lemma AdmissionCutsOff(w: seq<Entry>, xid: nat, xidRep: nat)
    requires Sorted(w) && xidRep < xid && Classify(w, xid).New? && !HasSentinel(w, xid, xidRep)
    ensures !Classify(w, xidRep + 1).Forgotten? && Classify(Check(w, xid, xidRep), xidRep + 1).Forgotten?
  {
    var w' := Check(w, xid, xidRep);
    CheckMeaning(w, xid, xidRep);
    ClassifyMeaning(w, xidRep + 1);
    ClassifyMeaning(w', xidRep + 1);
    assert w'[0].xid != xidRep && w'[0].xid != xidRep + 1;
  }

  /** A NEW request leaves every xid above its own xidRep as admissible as it was exactly
      when the window has a sentinel for xidRep. */
  lemma AdmissionCutsOffNothingIff(w: seq<Entry>, xid: nat, xidRep: nat)
    requires Sorted(w) && xidRep < xid && Classify(w, xid).New?
    ensures HasSentinel(w, xid, xidRep) <==>
      forall y :: y > xidRep && !Classify(w, y).Forgotten? ==> !Classify(Check(w, xid, xidRep), y).Forgotten?
  {
    if HasSentinel(w, xid, xidRep) {
      var w' := Check(w, xid, xidRep);
      CheckMeaning(w, xid, xidRep);
      EntriesKeys(w', xidRep);
      EntriesKeys(w', xidRep + 1);
      forall y | y > xidRep && !Classify(w, y).Forgotten? ensures !Classify(w', y).Forgotten? {
        ClassifyMeaning(w, y);
        ClassifyMeaning(w', y);
      }
    } else {
      AdmissionCutsOff(w, xid, xidRep);
    }
  }

  // ---- when an admission cuts off one given request ----

  /** Admitting xid leaves an entry e, and y is not below it. */
  ghost predicate GuardedBy(w: seq<Entry>, xid: nat, xidRep: nat, y: nat, e: nat) {
    xidRep <= e <= y && (e in Entries(w) || e == xid)
  }

  /** The window that admitting xid leaves has an entry at or below y. */
  ghost predicate Guarded(w: seq<Entry>, xid: nat, xidRep: nat, y: nat) {
    exists e: nat :: GuardedBy(w, xid, xidRep, y, e)
  }

  /** After a NEW request, y is admissible exactly when it is guarded. */
  lemma AdmissibleAfterIffGuarded(w: seq<Entry>, xid: nat, xidRep: nat, y: nat)
    requires Sorted(w) && xidRep < xid && Classify(w, xid).New?
    ensures !Classify(Check(w, xid, xidRep), y).Forgotten? <==> Guarded(w, xid, xidRep, y)
  {
    var w' := Check(w, xid, xidRep);
    CheckMeaning(w, xid, xidRep);
    ClassifyMeaning(w', y);
    if Guarded(w, xid, xidRep, y) {
      var e: nat :| GuardedBy(w, xid, xidRep, y, e);
      EntriesKeys(w', e);
    } else {
      assert w'[0].xid <= y ==> GuardedBy(w, xid, xidRep, y, w'[0].xid);
    }
  }

  /** A sentinel guards every admissible xid above xidRep. */
  lemma SentinelGuards(w: seq<Entry>, xid: nat, xidRep: nat, y: nat)
    requires Sorted(w) && xidRep < xid && Classify(w, xid).New? && HasSentinel(w, xid, xidRep)
    requires y > xidRep && !Classify(w, y).Forgotten?
    ensures Guarded(w, xid, xidRep, y)
  {
    AdmissionCutsOffNothingIff(w, xid, xidRep);
    AdmissibleAfterIffGuarded(w, xid, xidRep, y);
  }
}
