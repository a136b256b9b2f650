/** What holds in every reachable state: how client state, headers in flight, server
    windows and the history of executions hang together. */
module RpcInvariant {
  import opened Basics
  import opened RpcTypes
  import opened Wire
  import opened RpcProtocol
  import AckWindow
  import RW = ReplyWindow

  type Clients = map<nat, Client>
  type Issued = map<CallId, Request>

  function IdOf(r: Request): CallId {
    CallId(r.h.cltNonce, r.h.xid)
  }

  function Incarnations(s: System): set<nat> {
    s.past + {s.server.nonce}
  }

  /** A call is finished once its caller is done or has left `call1`. */
  ghost function Finished(c: Client): set<nat> {
    set x | 1 <= x < c.xid && (x in c.calls ==> c.calls[x].done)
  }

  ghost predicate ClientOk(c: Client) {
    && c.xid >= 1
    && (forall x :: x in c.calls ==> 1 <= x < c.xid)
    && AckWindow.Exact(c.window, Finished(c))
    && (!c.bindDone ==> c.srvNonce == 0)
  }

  ghost predicate ClientsInv(cs: Clients) {
    forall n :: n in cs ==> n != 0 && cs[n].nonce == n && ClientOk(cs[n])
  }

  /** What a header says never turns false: everything up to xid_rep is finished. */
  ghost predicate HeaderOk(cs: Clients, incs: set<nat>, id: CallId, h: Header) {
    && id.clt in cs && 1 <= id.xid < cs[id.clt].xid
    && h.xid == id.xid && h.cltNonce == id.clt
    && h.xidRep < h.xid
    && |cs[id.clt].window| > 0 && h.xidRep <= cs[id.clt].window[0]
    && (h.proc == BIND <==> h.srvNonce == 0)
    && (h.srvNonce != 0 ==> h.srvNonce in incs)
  }

  ghost predicate IssuedInv(cs: Clients, issued: Issued, incs: set<nat>) {
    && (forall id :: id in issued ==> HeaderOk(cs, incs, id, issued[id].h))
    && (forall n, x :: n in cs && 1 <= x < cs[n].xid ==> CallId(n, x) in issued)
  }

  ghost predicate IsIssued(issued: Issued, r: Request) {
    IdOf(r) in issued && issued[IdOf(r)] == r
  }

  ghost predicate NetworkInv(cs: Clients, issued: Issued, returned: map<CallId, Caller>, requests: set<Request>) {
    && (forall r :: r in requests ==> IsIssued(issued, r))
    && (forall n :: n in cs && cs[n].dupReq.Some? ==>
          IsIssued(issued, cs[n].dupReq.value) && IdOf(cs[n].dupReq.value) in returned
          && cs[n].dupReq.value.h.cltNonce == n)
  }

  /** The admission belongs to the running incarnation and names client n, xid x. */
  ghost predicate Admits(a: Admission, inc: nat, n: nat, x: nat) {
    a.inc == inc && a.req.h.cltNonce == n && a.req.h.xid == x
  }

  ghost predicate WasAdmitted(log: seq<Admission>, inc: nat, n: nat, x: nat) {
    exists j :: 0 <= j < |log| && Admits(log[j], inc, n, x)
  }

  /** An admitted xid is in its window or below the front: the heart of at-most-once. */
  ghost predicate Remembered(sv: Server, h: Header) {
    var w := WindowOf(sv, h.cltNonce);
    w != [] && w[0].xid >= h.xidRep && (h.xid in RW.Entries(w) || h.xid < w[0].xid)
  }

  ghost predicate WindowsInv(sv: Server, log: seq<Admission>) {
    && (forall n: nat :: RW.Sorted(WindowOf(sv, n)))
    && (forall n: nat, x: nat :: x in RW.Entries(WindowOf(sv, n)) ==> WasAdmitted(log, sv.nonce, n, x))
    && (forall j :: 0 <= j < |log| && log[j].inc == sv.nonce ==> Remembered(sv, log[j].req.h))
  }

  /** Each (incarnation, client, xid) is told NEW at most once. */
  ghost predicate NoRepeat(log: seq<Admission>) {
    forall i, j :: 0 <= i < j < |log| && log[i].inc == log[j].inc ==> IdOf(log[i].req) != IdOf(log[j].req)
  }

  ghost predicate LogInv(issued: Issued, incs: set<nat>, log: seq<Admission>) {
    && NoRepeat(log)
    && (forall j :: 0 <= j < |log| ==> IsIssued(issued, log[j].req) && log[j].inc in incs)
    && (forall j :: 0 <= j < |log| && log[j].req.h.proc != BIND ==> log[j].inc == log[j].req.h.srvNonce)
  }

  /** An admitted call that the window dropped is one its client is finished with. */
  ghost predicate OutstandingInv(sv: Server, log: seq<Admission>, cs: Clients) {
    forall j :: 0 <= j < |log| && log[j].inc == sv.nonce ==>
      var h := log[j].req.h;
      h.cltNonce in cs && |cs[h.cltNonce].window| > 0
      && (h.xid !in RW.Entries(WindowOf(sv, h.cltNonce)) ==> h.xid <= cs[h.cltNonce].window[0])
  }

  /** What the window holds for an admitted xid, given how far its dispatch thread got. */
  ghost predicate EntryOk(sv: Server, log: seq<Admission>, execs: map<nat, Reply>, j: nat)
    requires j < |log|
  {
    var h := log[j].req.h;
    var es := RW.Entries(WindowOf(sv, h.cltNonce));
    && (j in sv.jobs && !sv.jobs[j].phase.Stored? && h.xid in es ==> es[h.xid].None?)
    && (j !in sv.jobs || sv.jobs[j].phase.Stored? ==>
          j in execs && (h.xid in es ==> es[h.xid] == Some(execs[j])))
  }

  ghost predicate JobOk(sv: Server, log: seq<Admission>, execs: map<nat, Reply>, j: nat)
    requires j in sv.jobs
  {
    && j < |log| && log[j] == Admission(sv.nonce, sv.jobs[j].req)
    && (match sv.jobs[j].phase
        case Admitted => j !in execs
        case Executed(reply) => j in execs && execs[j] == reply
        case Stored(reply) => j in execs && execs[j] == reply)
  }

  ghost predicate ExecOk(log: seq<Admission>, j: nat, reply: Reply) {
    && j < |log| && reply.xid == log[j].req.h.xid && reply.ret >= 0
    && log[j].inc < WORD
    && (log[j].req.h.proc == BIND ==> reply.ret == 0 && reply.body == Pack32(log[j].inc))
  }

  ghost predicate JobsInv(sv: Server, log: seq<Admission>, execs: map<nat, Reply>) {
    && (forall j :: j in sv.jobs ==> JobOk(sv, log, execs, j))
    && (forall j :: 0 <= j < |log| && log[j].inc == sv.nonce ==> EntryOk(sv, log, execs, j))
  }

  ghost predicate ExecsInv(log: seq<Admission>, execs: map<nat, Reply>) {
    forall j :: j in execs ==> ExecOk(log, j, execs[j])
  }

  ghost predicate ProducedBy(log: seq<Admission>, execs: map<nat, Reply>, e: Envelope, j: nat) {
    j < |log| && j in execs && IdOf(log[j].req) == CallId(e.clt, e.reply.xid) && execs[j] == e.reply
  }

  /** A reply is one of the two protocol errors or what some execution produced. */
  ghost predicate ReplyOk(issued: Issued, log: seq<Admission>, execs: map<nat, Reply>, e: Envelope) {
    && CallId(e.clt, e.reply.xid) in issued
    && (e.reply.ret < 0 ==> e.reply.ret == ATMOSTONCE_FAILURE || e.reply.ret == OLDSRV_FAILURE)
    && (e.reply.ret >= 0 ==> exists j: nat :: ProducedBy(log, execs, e, j))
  }

  ghost predicate RepliesInv(issued: Issued, log: seq<Admission>, execs: map<nat, Reply>, replies: set<Envelope>) {
    forall e :: e in replies ==> ReplyOk(issued, log, execs, e)
  }

  ghost predicate CallerOk(replies: set<Envelope>, id: CallId, ca: Caller) {
    ca.done ==> Envelope(id.clt, Reply(id.xid, ca.intret, ca.un)) in replies
  }

  ghost predicate CallersInv(cs: Clients, issued: Issued, returned: map<CallId, Caller>, replies: set<Envelope>) {
    && (forall n, x :: n in cs && x in cs[n].calls ==> CallerOk(replies, CallId(n, x), cs[n].calls[x]))
    && (forall id :: id in returned ==>
          CallerOk(replies, id, returned[id]) && id in issued && id.clt in cs && id.xid !in cs[id.clt].calls)
    && (forall id :: id in issued ==> id.clt in cs && (id.xid in cs[id.clt].calls || id in returned))
  }

  ghost predicate NoncesInv(nonce: nat, past: set<nat>, cs: Clients) {
    && 0 < nonce < WORD && nonce !in past
    && (forall p :: p in past ==> 0 < p < WORD)
    && (forall n :: n in cs && cs[n].bindDone ==> cs[n].srvNonce != 0 && cs[n].srvNonce in past + {nonce})
  }

  /** What concerns the clients and the requests they made. */
  ghost predicate ClientSide(s: System) {
    && ClientsInv(s.clients)
    && IssuedInv(s.clients, s.issued, Incarnations(s))
    && NetworkInv(s.clients, s.issued, s.returned, s.requests)
    && CallersInv(s.clients, s.issued, s.returned, s.replies)
    && NoncesInv(s.server.nonce, s.past, s.clients)
  }

  /** What concerns the server and the history of admissions and executions. */
  ghost predicate ServerSide(s: System) {
    && WindowsInv(s.server, s.log)
    && LogInv(s.issued, Incarnations(s), s.log)
    && OutstandingInv(s.server, s.log, s.clients)
    && JobsInv(s.server, s.log, s.execs)
    && ExecsInv(s.log, s.execs)
    && RepliesInv(s.issued, s.log, s.execs, s.replies)
  }

  ghost predicate Inv(s: System) {
    ClientSide(s) && ServerSide(s)
  }

  // ---- how a client's own state moves ----

  /** c' is a later state of client c: it only issues more and finishes more. */
  ghost predicate Later(c: Client, c': Client) {
    && c'.nonce == c.nonce && c'.xid >= c.xid
    && |c.window| > 0 && |c'.window| > 0 && c'.window[0] >= c.window[0]
  }

  lemma InitInv(s: System)
    requires Init(s)
    ensures Inv(s)
  {
    forall n | n in s.clients ensures ClientOk(s.clients[n]) {
      assert Finished(s.clients[n]) == {};
    }
  }

  lemma BeginCallOk(c: Client)
    requires ClientOk(c)
    ensures ClientOk(BeginCall(c)) && Later(c, BeginCall(c))
  {
    assert Finished(BeginCall(c)) == Finished(c);
  }

  lemma FrontBelowXid(c: Client)
    requires ClientOk(c)
    ensures c.window[0] < c.xid
    ensures forall x :: 1 <= x <= c.window[0] ==> x in Finished(c)
  {
    if c.window[0] >= 1 {
      assert c.window[0] in Finished(c);
    }
  }

  lemma GotPduOk(c: Client, m: Reply)
    requires ClientOk(c) && 1 <= m.xid < c.xid
    ensures ClientOk(GotPdu(c, m)) && Later(c, GotPdu(c, m))
  {
    AckWindow.UpdateExact(c.window, Finished(c), m.xid);
    assert Finished(GotPdu(c, m)) == Finished(c) + {m.xid};
  }

  lemma EndCallOk(c: Client, x: nat)
    requires ClientOk(c) && x in c.calls
    ensures ClientOk(EndCall(c, x)) && Later(c, EndCall(c, x))
  {
    AckWindow.UpdateExact(c.window, Finished(c), x);
    assert Finished(EndCall(c, x)) == Finished(c) + {x};
  }

  /** An action of client n that only issues or finishes keeps the server side. */
  lemma ServerSideFrame(s: System, s': System, n: nat)
    requires ServerSide(s) && n in s.clients && n in s'.clients && Later(s.clients[n], s'.clients[n])
    requires s'.clients == s.clients[n := s'.clients[n]]
    requires forall id :: id in s.issued ==> id in s'.issued && s'.issued[id] == s.issued[id]
    requires s'.server == s.server && s'.log == s.log && s'.execs == s.execs && s'.replies == s.replies && s'.past == s.past
    ensures ServerSide(s')
  {
    LogFrame(s.issued, s'.issued, Incarnations(s), s.log);
    RepliesFrame(s.issued, s'.issued, s.log, s.execs, s.replies);
    OutstandingFrame(s.server, s.log, s.clients, n, s'.clients[n]);
  }

  lemma LogFrame(issued: Issued, issued': Issued, incs: set<nat>, log: seq<Admission>)
    requires LogInv(issued, incs, log)
    requires forall id :: id in issued ==> id in issued' && issued'[id] == issued[id]
    ensures LogInv(issued', incs, log)
  {
  }

  lemma RepliesFrame(issued: Issued, issued': Issued, log: seq<Admission>, execs: map<nat, Reply>, replies: set<Envelope>)
    requires RepliesInv(issued, log, execs, replies)
    requires forall id :: id in issued ==> id in issued'
    ensures RepliesInv(issued', log, execs, replies)
  {
    forall e | e in replies ensures ReplyOk(issued', log, execs, e) {
      assert ReplyOk(issued, log, execs, e);
    }
  }

  lemma OutstandingFrame(sv: Server, log: seq<Admission>, cs: Clients, n: nat, c': Client)
    requires OutstandingInv(sv, log, cs) && n in cs && Later(cs[n], c')
    ensures OutstandingInv(sv, log, cs[n := c'])
  {
  }

  lemma ClientsFrame(cs: Clients, n: nat, c': Client)
    requires ClientsInv(cs) && n in cs && ClientOk(c') && c'.nonce == n
    ensures ClientsInv(cs[n := c'])
  {
  }

  /** A client whose calls and saved request are as before. */
  lemma CallersFrame(cs: Clients, n: nat, c': Client, issued: Issued, returned: map<CallId, Caller>, replies: set<Envelope>)
    requires CallersInv(cs, issued, returned, replies) && n in cs && c'.calls == cs[n].calls
    ensures CallersInv(cs[n := c'], issued, returned, replies)
  {
  }

  lemma IssuedFrame(cs: Clients, n: nat, c': Client, issued: Issued, incs: set<nat>)
    requires IssuedInv(cs, issued, incs) && n in cs && Later(cs[n], c') && c'.xid == cs[n].xid
    ensures IssuedInv(cs[n := c'], issued, incs)
  {
    var cs' := cs[n := c'];
    forall id | id in issued ensures HeaderOk(cs', incs, id, issued[id].h) {
      assert HeaderOk(cs, incs, id, issued[id].h);
    }
  }
}
