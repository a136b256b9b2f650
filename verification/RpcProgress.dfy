/** What the protocol can do, from any reachable state: a waiting call that is not refused can
    be executed and answered with what the handler returns, and a reply that was lost can be
    had again without another execution. */
module RpcProgress {
  import opened Basics
  import opened RpcTypes
  import opened RpcProtocol
  import opened RpcInvariant
  import opened RpcTheorems
  import AckWindow
  import RW = ReplyWindow

  /** Waiting, with the request its caller issued. */
  ghost predicate WaitsFor(s: System, id: CallId, r: Request) {
    Waiting(s, id) && id in s.issued && s.issued[id] == r
  }

  /** Sending puts the request into the network and changes nothing else. */
  lemma CanSendIt(s: System, id: CallId, r: Request)
    requires WaitsFor(s, id, r)
    ensures
      var a := Transmit(id.clt, id.xid);
      Enabled(s, a) && Apply(s, a) == s.(requests := s.requests + {r})
  {
  }

  /** A NEW request starts a job with it. */
  lemma CanAdmit(s: System, r: Request)
    requires r in s.requests && ToldNew(s, r)
    ensures
      var s', j := Apply(s, Dispatch(r)), |s.log|;
      && Enabled(s, Dispatch(r))
      && j in s'.server.jobs && s'.server.jobs[j] == Job(r, Admitted)
      && s'.server.nonce == s.server.nonce
      && s' == s.(server := s'.server, log := s'.log) && s'.log == s.log + [Admission(s.server.nonce, r)]
  {
  }

  /** The job runs its handler, records the result and sends it. */
  lemma CanAnswer(s: System, j: nat, ret: int, body: Bytes)
    requires j in s.server.jobs && s.server.jobs[j].phase.Admitted? && s.server.jobs[j].req.h.proc != BIND
    requires ret >= 0 && s.server.nonce < WORD
    ensures
      var m := Reply(s.server.jobs[j].req.h.xid, ret, body);
      var h := s.server.jobs[j].req.h;
      && Enabled(s, Execute(j, ret, body)) && var s1 := Apply(s, Execute(j, ret, body));
         Enabled(s1, Record(j)) && var s2 := Apply(s1, Record(j));
         Enabled(s2, Send(j)) && var s3 := Apply(s2, Send(j));
         && s3.replies == s.replies + {Envelope(h.cltNonce, m)} && s3.execs == s.execs[j := m]
         && s3 == s.(server := s3.server, replies := s3.replies, execs := s3.execs)
         && s3.server.nonce == s.server.nonce
         && WindowOf(s3.server, h.cltNonce) == RW.Store(WindowOf(s.server, h.cltNonce), h.xid, m)
  {
  }

  /** A reply in the network reaches its waiting caller, who returns with it. */
  lemma CanReturn(s: System, id: CallId, m: Reply)
    requires ClientsInv(s.clients) && Waiting(s, id) && Envelope(id.clt, m) in s.replies && m.xid == id.xid
    ensures
      && Enabled(s, Deliver(id.clt, m)) && var s1 := Apply(s, Deliver(id.clt, m));
         Enabled(s1, Return(id.clt, id.xid)) && var s2 := Apply(s1, Return(id.clt, id.xid));
         s2.returned == s.returned[id := Caller(true, m.ret, m.body)]
  {
    assert ClientOk(s.clients[id.clt]);
    UpdateLeavesAFront(s.clients[id.clt].window, m.xid);
  }

  lemma UpdateLeavesAFront(w: seq<nat>, x: nat)
    requires |w| > 0
    ensures |AckWindow.Update(w, x)| > 0
  {
  }

  // ---- runs go on ----

  lemma RunReturn(ss: seq<System>, acts: seq<Action>, id: CallId, m: Reply) returns (ss': seq<System>, acts': seq<Action>)
    requires Run(ss, acts) && Waiting(ss[|acts|], id) && Envelope(id.clt, m) in ss[|acts|].replies && m.xid == id.xid
    ensures Run(ss', acts') && acts <= acts' && ss <= ss'
    ensures ss'[|acts'|].execs == ss[|acts|].execs && ss'[|acts'|].log == ss[|acts|].log
    ensures id in ss'[|acts'|].returned && ss'[|acts'|].returned[id] == Caller(true, m.ret, m.body)
  {
    RunKeeps(ss, acts, |acts|);
    CanReturn(ss[|acts|], id, m);
    ss', acts' := RunSnoc(ss, acts, Deliver(id.clt, m));
    ss', acts' := RunSnoc(ss', acts', Return(id.clt, id.xid));
  }

  lemma RunSend(ss: seq<System>, acts: seq<Action>, id: CallId, r: Request) returns (ss': seq<System>, acts': seq<Action>)
    requires Run(ss, acts) && WaitsFor(ss[|acts|], id, r)
    ensures Run(ss', acts') && acts <= acts' && ss <= ss'
    ensures ss'[|acts'|] == ss[|acts|].(requests := ss[|acts|].requests + {r})
  {
    CanSendIt(ss[|acts|], id, r);
    ss', acts' := RunSnoc(ss, acts, Transmit(id.clt, id.xid));
  }

  lemma RunAdmit(ss: seq<System>, acts: seq<Action>, r: Request) returns (ss': seq<System>, acts': seq<Action>)
    requires Run(ss, acts) && r in ss[|acts|].requests && ToldNew(ss[|acts|], r)
    ensures Run(ss', acts') && acts <= acts' && ss <= ss'
    ensures
      var s, s', j := ss[|acts|], ss'[|acts'|], |ss[|acts|].log|;
      j in s'.server.jobs && s'.server.jobs[j] == Job(r, Admitted) && s'.clients == s.clients
  {
    CanAdmit(ss[|acts|], r);
    ss', acts' := RunSnoc(ss, acts, Dispatch(r));
  }

  lemma RunAnswer(ss: seq<System>, acts: seq<Action>, j: nat, r: Request, ret: int, body: Bytes)
    returns (ss': seq<System>, acts': seq<Action>)
    requires Run(ss, acts) && j in ss[|acts|].server.jobs && ss[|acts|].server.jobs[j] == Job(r, Admitted)
    requires r.h.proc != BIND && ret >= 0
    ensures Run(ss', acts') && acts <= acts' && ss <= ss'
    ensures Envelope(r.h.cltNonce, Reply(r.h.xid, ret, body)) in ss'[|acts'|].replies
    ensures ss'[|acts'|].clients == ss[|acts|].clients
  {
    NonceFits(ss, acts);
    CanAnswer(ss[|acts|], j, ret, body);
    ss', acts' := RunSnoc(ss, acts, Execute(j, ret, body));
    ss', acts' := RunSnoc(ss', acts', Record(j));
    ss', acts' := RunSnoc(ss', acts', Send(j));
  }

  lemma NonceFits(ss: seq<System>, acts: seq<Action>)
    requires Run(ss, acts)
    ensures ss[|acts|].server.nonce < WORD
  {
    RunKeeps(ss, acts, |acts|);
  }

  lemma IssuedUnderId(ss: seq<System>, acts: seq<Action>, id: CallId, r: Request)
    requires Run(ss, acts) && WaitsFor(ss[|acts|], id, r)
    ensures r.h.cltNonce == id.clt && r.h.xid == id.xid
  {
    RunKeeps(ss, acts, |acts|);
    assert HeaderOk(ss[|acts|].clients, Incarnations(ss[|acts|]), id, r.h);
  }

  /** From any reachable state the request of a waiting call, if it would be told NEW, can be
      answered with whatever the handler returns, and the caller then has exactly that. */
  lemma WaitingCallCanBeAnswered(ss: seq<System>, acts: seq<Action>, id: CallId, r: Request, ret: int, body: Bytes)
    returns (ss': seq<System>, acts': seq<Action>)
    requires Run(ss, acts) && WaitsFor(ss[|acts|], id, r) && ToldNew(ss[|acts|], r) && r.h.proc != BIND && ret >= 0
    ensures Run(ss', acts') && acts <= acts' && ss <= ss'
    ensures id in ss'[|acts'|].returned && ss'[|acts'|].returned[id] == Caller(true, ret, body)
  {
    IssuedUnderId(ss, acts, id, r);
    ss', acts' := RunSend(ss, acts, id, r);
    ss', acts' := RunAdmit(ss', acts', r);
    ss', acts' := RunAnswer(ss', acts', |ss[|acts|].log|, r, ret, body);
    ss', acts' := RunReturn(ss', acts', id, Reply(id.xid, ret, body));
  }

  /** A waiting call whose reply is stored can be answered with it, without another execution. */
  lemma StoredReplyCanBeHad(ss: seq<System>, acts: seq<Action>, id: CallId, r: Request, m: Reply)
    returns (ss': seq<System>, acts': seq<Action>)
    requires Run(ss, acts) && WaitsFor(ss[|acts|], id, r) && m.xid == id.xid
    requires !WrongIncarnation(ss[|acts|].server, r.h) && StatusOf(ss[|acts|].server, r.h) == RW.Done(m)
    ensures Run(ss', acts') && acts <= acts' && ss'[|acts'|].execs == ss[|acts|].execs && ss'[|acts'|].log == ss[|acts|].log
    ensures id in ss'[|acts'|].returned && ss'[|acts'|].returned[id] == Caller(true, m.ret, m.body)
  {
    IssuedUnderId(ss, acts, id, r);
    ss', acts' := RunSend(ss, acts, id, r);
    CanReplay(ss'[|acts'|], r, m);
    ss', acts' := RunSnoc(ss', acts', Dispatch(r));
    ss', acts' := RunReturn(ss', acts', id, m);
  }

  lemma CanReplay(s: System, r: Request, m: Reply)
    requires r in s.requests && !WrongIncarnation(s.server, r.h) && StatusOf(s.server, r.h) == RW.Done(m)
    ensures
      var s' := Apply(s, Dispatch(r));
      && Enabled(s, Dispatch(r)) && s'.replies == s.replies + {Envelope(r.h.cltNonce, m)}
      && s' == s.(server := s'.server, replies := s'.replies)
  {
  }

  /** Lossy testing sends the saved request once: it is in the network and no longer saved. */
  lemma DuplicateIsSent(s: System, n: nat)
    requires CanTransmitDuplicate(s, n)
    ensures
      var s' := Apply(s, TransmitDuplicate(n));
      && s'.requests == s.requests + {s.clients[n].dupReq.value} && s'.clients[n].dupReq.None?
      && s'.clients[n] == s.clients[n].(dupReq := None) && !CanTransmitDuplicate(s', n)
  {
  }

  /** A restart forgets windows and jobs and nothing else. */
  lemma RestartForgets(s: System, nonce: nat, n: nat)
    requires CanRestart(s, nonce)
    ensures
      var s' := Apply(s, Restart(nonce));
      && WindowOf(s'.server, n) == [] && s'.server.jobs == map[] && s'.server.nonce == nonce
      && s' == s.(server := s'.server, past := s.past + {s.server.nonce})
  {
  }
}
