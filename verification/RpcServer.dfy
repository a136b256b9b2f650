/** `rpcs`: the server endpoint's at-most-once bookkeeping, updated in place under
    `reply_window_m_`. */
module RpcServer {
  import opened Basics
  import opened RpcTypes
  import P = RpcProtocol
  import RW = ReplyWindow

  /** What dispatch decides before it runs a handler. */
  datatype Verdict = Run | Ignore | Answer(reply: Reply)

  class Rpcs {
    const nonce: nat
    var replyWindow: map<nat, seq<RW.Entry>>

    /** The server as the protocol model sees it, dispatch threads left aside. */
    function Abs(): P.Server
      reads this
    {
      P.Server(nonce, replyWindow, map[])
    }

    constructor (n: nat)
      ensures Abs() == P.Server(n, map[], map[])
    {
      nonce := n;
      replyWindow := map[];
    }

    method CheckDuplicateAndUpdate(clt: nat, xid: nat, xidRep: nat) returns (ret: RW.Status)
      modifies this
      ensures ret == RW.Classify(P.WindowOf(old(Abs()), clt), xid)
      ensures replyWindow == old(replyWindow)[clt := RW.Check(P.WindowOf(old(Abs()), clt), xid, xidRep)]
    {
      var rlist := if clt in replyWindow then replyWindow[clt] else [];
      replyWindow := replyWindow[clt := rlist];
      var it := Search(rlist, xid);
      if it < |rlist| {
        return if rlist[it].reply.Some? then RW.Done(rlist[it].reply.value) else RW.InProgress;
      }
      if |rlist| > 0 && xid < rlist[0].xid {
        return RW.Forgotten;
      }
      rlist := InsertEntry(rlist, xid);
      rlist := EraseBelow(rlist, xidRep);
      replyWindow := replyWindow[clt := rlist];
      ret := RW.New;
    }

    /** The loop that looks for an entry of this xid. */
    static method Search(rlist: seq<RW.Entry>, xid: nat) returns (it: nat)
      ensures it == RW.Find(rlist, xid)
    {
      it := 0;
      while it < |rlist| && rlist[it].xid != xid
        invariant it <= |rlist|
        invariant forall i :: 0 <= i < it ==> rlist[i].xid != xid
      {
        it := it + 1;
      }
      FindIsFirst(rlist, xid, it);
    }

    /** The loop that keeps the list sorted when the new entry goes in. */
    static method InsertEntry(rlist: seq<RW.Entry>, xid: nat) returns (r: seq<RW.Entry>)
      ensures r == RW.Admit(rlist, xid)
    {
      var it := 0;
      while it < |rlist| && rlist[it].xid <= xid
        invariant it <= |rlist|
        invariant forall i :: 0 <= i < it ==> rlist[i].xid <= xid
      {
        it := it + 1;
      }
      RW.AdmitSplits(rlist, xid, it);
      r := rlist[..it] + [RW.Entry(xid, None)] + rlist[it..];
    }

    /** The loop that erases what the client has acknowledged; the entry equal to
        `xid_rep` stays. */
    static method EraseBelow(rlist: seq<RW.Entry>, xidRep: nat) returns (r: seq<RW.Entry>)
      ensures r == RW.Trim(rlist, xidRep)
    {
      var it := 0;
      while it < |rlist| && rlist[it].xid < xidRep
        invariant it <= |rlist|
        invariant RW.Trim(rlist[it..], xidRep) == RW.Trim(rlist, xidRep)
      {
        assert rlist[it..][1..] == rlist[it + 1..];
        it := it + 1;
      }
      r := rlist[it..];
    }

    method AddReply(clt: nat, xid: nat, reply: Reply)
      modifies this
      ensures replyWindow == old(replyWindow)[clt := RW.Store(P.WindowOf(old(Abs()), clt), xid, reply)]
    {
      var rlist := if clt in replyWindow then replyWindow[clt] else [];
      ghost var before := rlist;
      var it := 0;
      while it < |rlist|
        invariant it <= |rlist| == |before|
        invariant forall i :: 0 <= i < it ==> rlist[i] == if before[i].xid == xid then RW.Entry(xid, Some(reply)) else before[i]
        invariant forall i :: it <= i < |rlist| ==> rlist[i] == before[i]
      {
        if rlist[it].xid == xid {
          rlist := rlist[it := RW.Entry(xid, Some(reply))];
        }
        it := it + 1;
      }
      assert rlist == RW.Store(before, xid, reply);
      replyWindow := replyWindow[clt := rlist];
    }

    /** dispatch, from the header to the switch; clients with nonce 0 asked for no
        at-most-once bookkeeping. */
    method Dispatch(h: Header) returns (v: Verdict)
      modifies this
      ensures P.WrongIncarnation(old(Abs()), h) <==> h.srvNonce != 0 && h.srvNonce != nonce
      ensures h.srvNonce != 0 && h.srvNonce != nonce ==>
        v == Answer(Reply(h.xid, OLDSRV_FAILURE, [])) && Abs() == old(Abs())
      ensures (h.srvNonce == 0 || h.srvNonce == nonce) && h.cltNonce == 0 ==> v == Run && Abs() == old(Abs())
      ensures (h.srvNonce == 0 || h.srvNonce == nonce) && h.cltNonce != 0 ==>
        && Abs() == P.CheckRequest(old(Abs()), h)
        && v == match P.StatusOf(old(Abs()), h) {
             case New => Run
             case InProgress => Ignore
             case Done(reply) => Answer(reply)
             case Forgotten => Answer(Reply(h.xid, ATMOSTONCE_FAILURE, []))
           }
    {
      if h.srvNonce != 0 && h.srvNonce != nonce {
        return Answer(Reply(h.xid, OLDSRV_FAILURE, []));
      }
      var stat := RW.New;
      if h.cltNonce != 0 {
        stat := CheckDuplicateAndUpdate(h.cltNonce, h.xid, h.xidRep);
      }
      match stat {
        case New => v := Run;
        case InProgress => v := Ignore;
        case Done(reply) => v := Answer(reply);
        case Forgotten => v := Answer(Reply(h.xid, ATMOSTONCE_FAILURE, []));
      }
    }
  }

  lemma {:induction false} FindIsFirst(w: seq<RW.Entry>, xid: nat, it: nat)
    requires it <= |w| && (forall i :: 0 <= i < it ==> w[i].xid != xid) && (it < |w| ==> w[it].xid == xid)
    ensures RW.Find(w, xid) == it
  {
  }
}
