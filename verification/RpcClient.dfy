/** `rpcc`: the client endpoint, its fields updated in place under the lock `m_`. */
module RpcClient {
  import opened Basics
  import opened RpcTypes
  import opened Wire
  import AckWindow
  import P = RpcProtocol

  datatype Outcome<T> = Ok(value: T) | Err(code: int)

  class Rpcc {
    const cltNonce: nat
    var srvNonce: nat
    var bindDone: bool
    var xid: nat
    var calls: map<nat, P.Caller>
    var xidRepWindow: seq<nat>
    var dupReq: Option<Request>
    var xidRepDone: int
    var destroyWait: bool

    /** The client as the protocol model sees it. */
    function Abs(): P.Client
      reads this
    {
      P.Client(cltNonce, srvNonce, bindDone, xid, calls, xidRepWindow, dupReq, xidRepDone)
    }

    ghost predicate Valid()
      reads this
    {
      |xidRepWindow| > 0 && AckWindow.Ascending(xidRepWindow)
    }

    constructor (nonce: nat)
      ensures Valid() && Abs() == P.InitClient(nonce) && !destroyWait
    {
      cltNonce := nonce;
      srvNonce, bindDone, xid := 0, false, 1;
      calls := map[];
      xidRepWindow := [0];
      dupReq, xidRepDone, destroyWait := None, -1, false;
    }

    method UpdateXidRep(x: nat)
      requires Valid()
      modifies `xidRepWindow
      ensures Valid() && xidRepWindow == AckWindow.Update(old(xidRepWindow), x)
    {
      if x <= xidRepWindow[0] {
        return;
      }
      var it := 0;
      while it < |xidRepWindow| && xidRepWindow[it] <= x
        invariant it <= |xidRepWindow|
        invariant forall i :: 0 <= i < it ==> xidRepWindow[i] <= x
      {
        it := it + 1;
      }
      PlaceIsFirst(xidRepWindow, x, it);
      AckWindow.InsertKeepsOrder(xidRepWindow, x);
      xidRepWindow := xidRepWindow[..it] + [x] + xidRepWindow[it..];
      Compress();
    }

    /** The loop at the label `compress` of update_xid_rep.  `it` is the list iterator:
        pop_front never removes the element it stands on, for it is never 0 then. */
    method Compress()
      requires Valid()
      modifies `xidRepWindow
      ensures Valid() && xidRepWindow == AckWindow.Compress(old(xidRepWindow))
    {
      var it := 1;
      while it < |xidRepWindow|
        invariant Valid() && 1 <= it <= |xidRepWindow|
        invariant AckWindow.Passed(xidRepWindow, it)
        invariant AckWindow.Compress(xidRepWindow) == AckWindow.Compress(old(xidRepWindow))
        decreases |xidRepWindow| - it
      {
        ghost var rest := |xidRepWindow| - it;
        while xidRepWindow[0] + 1 == xidRepWindow[it]
          invariant Valid() && 0 <= it < |xidRepWindow| && |xidRepWindow| - it == rest
          invariant AckWindow.Passed(xidRepWindow, it)
          invariant AckWindow.Compress(xidRepWindow) == AckWindow.Compress(old(xidRepWindow))
          decreases it
        {
          assert it > 0;
          AckWindow.CompressPops(xidRepWindow, it);
          xidRepWindow := xidRepWindow[1..];
          it := it - 1;
        }
        it := it + 1;
      }
      AckWindow.CompressStops(xidRepWindow);
    }

    /** call1, first locked region: number the call and pack its header.  A client that is
        being cancelled takes no new calls. */
    method BeginCall(proc: nat, args: Bytes) returns (r: Outcome<Request>)
      requires Valid()
      modifies `xid, `calls
      ensures Valid()
      ensures (proc == BIND) == bindDone ==> r == Err(BIND_FAILURE) && Abs() == old(Abs())
      ensures (proc == BIND) != bindDone && destroyWait ==> r == Err(CANCEL_FAILURE) && Abs() == old(Abs())
      ensures (proc == BIND) != bindDone && !destroyWait ==>
                && r.Ok? && r.value.args == args && r.value.h.proc == proc && r.value.h.xid == old(xid)
                && r.value.h.cltNonce == cltNonce && r.value.h.srvNonce == srvNonce
                && r.value.h.xidRep == xidRepWindow[0]
                && xid == old(xid) + 1 && calls == old(calls)[old(xid) := P.Caller(false, 0, [])]
      // the step of the protocol
      ensures P.MayCall(old(Abs()), proc) <==> (proc == BIND) != bindDone
      ensures r.Ok? ==> r.value == P.NewRequest(old(Abs()), proc, args) && Abs() == P.BeginCall(old(Abs()))
    {
      if (proc != BIND && !bindDone) || (proc == BIND && bindDone) {
        return Err(BIND_FAILURE);
      }
      if destroyWait {
        return Err(CANCEL_FAILURE);
      }
      var x := xid;
      xid := xid + 1;
      calls := calls[x := P.Caller(false, 0, [])];
      r := Ok(Request(Header(x, proc, cltNonce, srvNonce, xidRepWindow[0]), args));
    }

    /** call1, just before sending: take the saved duplicate if it is due. */
    method TakeDuplicate() returns (forgot: Option<Request>)
      modifies this
      ensures forgot.Some? <==> old(dupReq).Some? && xidRepDone > old(dupReq).value.h.xid
      ensures forgot.Some? ==> forgot == old(dupReq)
      ensures Abs() == if forgot.Some? then old(Abs()).(dupReq := None) else old(Abs())
      ensures forgot.Some? <==> P.DuplicateDue(old(Abs()))
    {
      forgot := None;
      if dupReq.Some? && xidRepDone > dupReq.value.h.xid {
        forgot := dupReq;
        dupReq := None;
      }
    }

    /** got_pdu: the upcall that hands a reply to its caller. */
    method GotPdu(m: Reply)
      requires Valid()
      modifies this
      ensures Valid() && Abs() == P.GotPdu(old(Abs()), m)
      ensures calls == if m.xid in old(calls) && !old(calls)[m.xid].done
                       then old(calls)[m.xid := P.Caller(true, m.ret, m.body)] else old(calls)
      ensures xidRepWindow == AckWindow.Update(old(xidRepWindow), m.xid)
    {
      UpdateXidRep(m.xid);
      if m.xid !in calls {
        return;
      }
      var ca := calls[m.xid];
      if !ca.done {
        calls := calls[m.xid := P.Caller(true, m.ret, m.body)];
      }
    }

    /** call1, after the loop: forget the caller and return its result. */
    method EndCall(x: nat) returns (ret: int)
      requires Valid() && x in calls
      modifies this
      ensures Valid() && Abs() == P.EndCall(old(Abs()), x) && ret == P.Result(old(calls)[x])
      ensures ret == if old(calls)[x].done then old(calls)[x].intret else TIMEOUT_FAILURE
      ensures calls == old(calls) - {x} && xidRepWindow == AckWindow.Update(old(xidRepWindow), x)
    {
      var ca := calls[x];
      calls := calls - {x};
      UpdateXidRep(x);
      ret := if ca.done then ca.intret else TIMEOUT_FAILURE;
    }

    /** bind, after its call returned `ret` with the bytes `un`. */
    method EndBind(ret: int, un: Bytes)
      requires ret == 0 ==> |un| == 4
      modifies `bindDone, `srvNonce
      ensures Abs() == if ret == 0 then P.EndBind(old(Abs()), un) else old(Abs())
      ensures if ret == 0 then bindDone && srvNonce < WORD && un == Pack32(srvNonce) else bindDone == old(bindDone) && srvNonce == old(srvNonce)
    {
      if ret == 0 {
        Unpack32RoundTrip(un);
        bindDone := true;
        srvNonce := Unpack32(un);
      }
    }

    /** call1, lossy testing: keep a finished request to send it again later. */
    method SaveDuplicate(r: Request)
      modifies this
      ensures Abs() == P.SaveDuplicate(old(Abs()), r)
      ensures dupReq == if old(dupReq).Some? then old(dupReq) else Some(r)
      ensures xidRepDone >= old(xidRepDone) && xidRepDone >= r.h.xidRep
      ensures xidRepDone == old(xidRepDone) || xidRepDone == r.h.xidRep
    {
      if dupReq.None? {
        dupReq := Some(r);
      }
      if r.h.xidRep > xidRepDone {
        xidRepDone := r.h.xidRep;
      }
    }
  }

  lemma PlaceIsFirst(w: seq<nat>, x: nat, it: nat)
    requires it <= |w| && (forall i :: 0 <= i < it ==> w[i] <= x) && (it < |w| ==> w[it] > x)
    ensures AckWindow.Place(w, x) == it
  {
  }

  /** Any number of reports, in any order and with repeats, leaves the window exact. */
  method ReportAll(c: Rpcc, xids: seq<nat>)
    requires c.Valid() && c.xidRepWindow == [0]
    requires forall i :: 0 <= i < |xids| ==> xids[i] >= 1
    modifies c
    ensures c.Valid() && AckWindow.Exact(c.xidRepWindow, AckWindow.ToSet(xids))
  {
    for i := 0 to |xids|
      invariant c.Valid() && c.xidRepWindow == AckWindow.UpdateAll([0], xids[..i])
    {
      c.UpdateXidRep(xids[i]);
      assert xids[..i + 1][..i] == xids[..i];
    }
    assert xids[..|xids|] == xids;
    AckWindow.UpdateAllExact(xids);
  }
}
