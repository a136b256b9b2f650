/** The client's actions keep the invariant. */
module RpcClientSteps {
  import opened Basics
  import opened RpcTypes
  import opened Wire
  import opened RpcProtocol
  import opened RpcInvariant

  // ---- call1, first locked region ----

  lemma CallIssued(s: System, n: nat, proc: nat, args: Bytes)
    requires ClientsInv(s.clients) && IssuedInv(s.clients, s.issued, Incarnations(s))
    requires NoncesInv(s.server.nonce, s.past, s.clients) && CanCall(s, n, proc)
    ensures
      var s' := CallStep(s, n, proc, args);
      IssuedInv(s'.clients, s'.issued, Incarnations(s))
    ensures CallId(n, s.clients[n].xid) !in s.issued
  {
    var c := s.clients[n];
    var s' := CallStep(s, n, proc, args);
    FrontBelowXid(c);
    forall id | id in s'.issued ensures HeaderOk(s'.clients, Incarnations(s), id, s'.issued[id].h) {
      if id != CallId(n, c.xid) {
        assert HeaderOk(s.clients, Incarnations(s), id, s.issued[id].h);
      }
    }
  }

  lemma CallNetwork(cs: Clients, issued: Issued, returned: map<CallId, Caller>, requests: set<Request>, n: nat, r: Request)
    requires NetworkInv(cs, issued, returned, requests) && n in cs && CallId(n, cs[n].xid) !in issued
    ensures NetworkInv(cs[n := BeginCall(cs[n])], issued[CallId(n, cs[n].xid) := r], returned, requests)
  {
  }

  lemma CallCallers(cs: Clients, issued: Issued, returned: map<CallId, Caller>, replies: set<Envelope>, n: nat, r: Request)
    requires CallersInv(cs, issued, returned, replies) && n in cs && CallId(n, cs[n].xid) !in issued
    ensures CallersInv(cs[n := BeginCall(cs[n])], issued[CallId(n, cs[n].xid) := r], returned, replies)
  {
  }

  lemma CallClientSide(s: System, n: nat, proc: nat, args: Bytes)
    requires ClientSide(s) && CanCall(s, n, proc)
    ensures ClientSide(CallStep(s, n, proc, args))
  {
    var c := s.clients[n];
    var r := NewRequest(c, proc, args);
    BeginCallOk(c);
    CallIssued(s, n, proc, args);
    ClientsFrame(s.clients, n, BeginCall(c));
    CallNetwork(s.clients, s.issued, s.returned, s.requests, n, r);
    CallCallers(s.clients, s.issued, s.returned, s.replies, n, r);
  }

  lemma CallServerSide(s: System, n: nat, proc: nat, args: Bytes)
    requires ClientSide(s) && ServerSide(s) && CanCall(s, n, proc)
    ensures ServerSide(CallStep(s, n, proc, args))
  {
    BeginCallOk(s.clients[n]);
    CallIssued(s, n, proc, args);
    ServerSideFrame(s, CallStep(s, n, proc, args), n);
  }

  // ---- actions that change one client and issue nothing ----

  ghost predicate OnlyClient(s: System, s': System, n: nat) {
    && n in s.clients && n in s'.clients
    && s'.clients == s.clients[n := s'.clients[n]] && s'.clients[n].xid == s.clients[n].xid
    && s'.issued == s.issued && s'.server == s.server && s'.past == s.past
    && s'.log == s.log && s'.execs == s.execs && s'.replies == s.replies
  }

  lemma ClientStepKeeps(s: System, s': System, n: nat)
    requires ClientsInv(s.clients) && IssuedInv(s.clients, s.issued, Incarnations(s)) && ServerSide(s)
    requires OnlyClient(s, s', n) && Later(s.clients[n], s'.clients[n]) && ClientOk(s'.clients[n])
    requires NetworkInv(s'.clients, s'.issued, s'.returned, s'.requests)
    requires CallersInv(s'.clients, s'.issued, s'.returned, s'.replies)
    requires NoncesInv(s'.server.nonce, s'.past, s'.clients)
    ensures Inv(s')
  {
    ServerSideFrame(s, s', n);
    ClientsFrame(s.clients, n, s'.clients[n]);
    IssuedFrame(s.clients, n, s'.clients[n], s.issued, Incarnations(s));
  }

  lemma NoncesFrame(nonce: nat, past: set<nat>, cs: Clients, n: nat, c': Client)
    requires NoncesInv(nonce, past, cs) && n in cs
    requires c'.bindDone ==> (cs[n].bindDone && c'.srvNonce == cs[n].srvNonce) || (c'.srvNonce != 0 && c'.srvNonce in past + {nonce})
    ensures NoncesInv(nonce, past, cs[n := c'])
  {
  }

  lemma NetworkFrame(cs: Clients, n: nat, c': Client, issued: Issued, returned: map<CallId, Caller>,
                     returned': map<CallId, Caller>, requests: set<Request>)
    requires NetworkInv(cs, issued, returned, requests) && n in cs
    requires forall id :: id in returned ==> id in returned'
    requires c'.dupReq.Some? && c'.dupReq != cs[n].dupReq ==>
      IsIssued(issued, c'.dupReq.value) && IdOf(c'.dupReq.value) in returned && c'.dupReq.value.h.cltNonce == n
    ensures NetworkInv(cs[n := c'], issued, returned', requests)
  {
  }

  // ---- transmissions ----

  lemma SendFrame(cs: Clients, issued: Issued, returned: map<CallId, Caller>, requests: set<Request>, r: Request)
    requires NetworkInv(cs, issued, returned, requests) && IsIssued(issued, r)
    ensures NetworkInv(cs, issued, returned, requests + {r})
  {
  }

  lemma TransmitKeeps(s: System, n: nat, x: nat)
    requires Inv(s) && CanTransmit(s, n, x)
    ensures Inv(TransmitStep(s, n, x))
  {
    var id := CallId(n, x);
    assert HeaderOk(s.clients, Incarnations(s), id, s.issued[id].h);
    SendFrame(s.clients, s.issued, s.returned, s.requests, s.issued[id]);
  }

  lemma TransmitDuplicateNetwork(s: System, n: nat)
    requires NetworkInv(s.clients, s.issued, s.returned, s.requests) && CanTransmitDuplicate(s, n)
    ensures
      var s' := TransmitDuplicateStep(s, n);
      NetworkInv(s'.clients, s.issued, s.returned, s'.requests)
  {
    var c := s.clients[n];
    SendFrame(s.clients, s.issued, s.returned, s.requests, c.dupReq.value);
    NetworkFrame(s.clients, n, c.(dupReq := None), s.issued, s.returned, s.returned, s.requests + {c.dupReq.value});
  }

  lemma TransmitDuplicateKeeps(s: System, n: nat)
    requires Inv(s) && CanTransmitDuplicate(s, n)
    ensures Inv(TransmitDuplicateStep(s, n))
  {
    var c := s.clients[n];
    var c' := c.(dupReq := None);
    TransmitDuplicateNetwork(s, n);
    assert ClientOk(c') by { assert Finished(c') == Finished(c); }
    CallersFrame(s.clients, n, c', s.issued, s.returned, s.replies);
    NoncesFrame(s.server.nonce, s.past, s.clients, n, c');
    ClientStepKeeps(s, TransmitDuplicateStep(s, n), n);
  }

  // ---- got_pdu ----

  lemma DeliverOk(s: System, n: nat, m: Reply)
    requires Inv(s) && CanDeliver(s, n, m)
    ensures ClientOk(GotPdu(s.clients[n], m)) && Later(s.clients[n], GotPdu(s.clients[n], m))
  {
    assert ReplyOk(s.issued, s.log, s.execs, Envelope(n, m));
    assert HeaderOk(s.clients, Incarnations(s), CallId(n, m.xid), s.issued[CallId(n, m.xid)].h);
    GotPduOk(s.clients[n], m);
  }

  lemma DeliverCallers(s: System, n: nat, m: Reply)
    requires CallersInv(s.clients, s.issued, s.returned, s.replies) && CanDeliver(s, n, m)
    ensures CallersInv(DeliverStep(s, n, m).clients, s.issued, s.returned, s.replies)
  {
  }

  lemma DeliverKeeps(s: System, n: nat, m: Reply)
    requires Inv(s) && CanDeliver(s, n, m)
    ensures Inv(DeliverStep(s, n, m))
  {
    var c' := GotPdu(s.clients[n], m);
    DeliverOk(s, n, m);
    DeliverCallers(s, n, m);
    NetworkFrame(s.clients, n, c', s.issued, s.returned, s.returned, s.requests);
    NoncesFrame(s.server.nonce, s.past, s.clients, n, c');
    ClientStepKeeps(s, DeliverStep(s, n, m), n);
  }

  // ---- call1, leaving the loop ----

  lemma ReturnCallers(s: System, n: nat, x: nat)
    requires CallersInv(s.clients, s.issued, s.returned, s.replies) && CanReturn(s, n, x)
    requires CallId(n, x) in s.issued
    ensures
      var s' := ReturnStep(s, n, x);
      CallersInv(s'.clients, s.issued, s'.returned, s.replies)
  {
    var s' := ReturnStep(s, n, x);
    forall id | id in s'.returned
      ensures CallerOk(s.replies, id, s'.returned[id]) && id in s.issued && id.clt in s'.clients && id.xid !in s'.clients[id.clt].calls
    {
      if id == CallId(n, x) {
        assert CallerOk(s.replies, CallId(n, x), s.clients[n].calls[x]);
      }
    }
  }

  lemma ReturnKeeps(s: System, n: nat, x: nat)
    requires Inv(s) && CanReturn(s, n, x)
    ensures Inv(ReturnStep(s, n, x))
  {
    var s' := ReturnStep(s, n, x);
    var c' := EndCall(s.clients[n], x);
    EndCallOk(s.clients[n], x);
    ReturnCallers(s, n, x);
    NetworkFrame(s.clients, n, c', s.issued, s.returned, s'.returned, s.requests);
    NoncesFrame(s.server.nonce, s.past, s.clients, n, c');
    ClientStepKeeps(s, s', n);
  }

  // ---- after call1 ----

  lemma SaveDupKeeps(s: System, n: nat, x: nat)
    requires Inv(s) && CanSaveDup(s, n, x)
    ensures Inv(SaveDupStep(s, n, x))
  {
    var c := s.clients[n];
    var c' := SaveDuplicate(c, s.issued[CallId(n, x)]);
    assert HeaderOk(s.clients, Incarnations(s), CallId(n, x), s.issued[CallId(n, x)].h);
    assert ClientOk(c') by { assert Finished(c') == Finished(c); }
    NetworkFrame(s.clients, n, c', s.issued, s.returned, s.returned, s.requests);
    CallersFrame(s.clients, n, c', s.issued, s.returned, s.replies);
    NoncesFrame(s.server.nonce, s.past, s.clients, n, c');
    ClientStepKeeps(s, SaveDupStep(s, n, x), n);
  }

  /** A successful bind carries the nonce of the incarnation that executed it. */
  lemma BindCarriesNonce(s: System, n: nat, x: nat)
    requires CallersInv(s.clients, s.issued, s.returned, s.replies) && NoncesInv(s.server.nonce, s.past, s.clients)
    requires RepliesInv(s.issued, s.log, s.execs, s.replies) && ExecsInv(s.log, s.execs)
    requires LogInv(s.issued, Incarnations(s), s.log)
    requires CanBindDone(s, n, x)
    ensures
      var v := Unpack32(s.returned[CallId(n, x)].un);
      && v != 0 && v in Incarnations(s)
      && exists j :: 0 <= j < |s.log| && IdOf(s.log[j].req) == CallId(n, x) && s.log[j].inc == v
  {
    var id := CallId(n, x);
    var e := Envelope(n, Reply(x, 0, s.returned[id].un));
    assert CallerOk(s.replies, id, s.returned[id]);
    assert ReplyOk(s.issued, s.log, s.execs, e);
    var j: nat :| ProducedBy(s.log, s.execs, e, j);
    assert ExecOk(s.log, j, s.execs[j]);
    Pack32RoundTrip(s.log[j].inc);
  }

  lemma BindDoneKeeps(s: System, n: nat, x: nat)
    requires Inv(s) && CanBindDone(s, n, x)
    ensures Inv(BindDoneStep(s, n, x))
  {
    var c := s.clients[n];
    var c' := EndBind(c, s.returned[CallId(n, x)].un);
    BindCarriesNonce(s, n, x);
    assert ClientOk(c') by { assert Finished(c') == Finished(c); }
    NetworkFrame(s.clients, n, c', s.issued, s.returned, s.returned, s.requests);
    CallersFrame(s.clients, n, c', s.issued, s.returned, s.replies);
    NoncesFrame(s.server.nonce, s.past, s.clients, n, c');
    ClientStepKeeps(s, BindDoneStep(s, n, x), n);
  }
}
