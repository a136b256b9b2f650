/** Runs of one server incarnation in which every client binds once, first, and no call
    is given up before it is answered.  In those runs no live call is ever forgotten;
    one timeout is enough to lose that. */
module RpcCalmRuns {
  import opened Basics
  import opened RpcTypes
  import opened RpcProtocol
  import opened RpcInvariant
  import opened RpcServerSteps
  import opened RpcTheorems
  import RpcOneIncarnation
  import RpcLiveCalls
  import RW = ReplyWindow

  ghost predicate Calm(s: System, a: Action) {
    && !a.Restart?
    && (a.Return? && a.n in s.clients && a.x in s.clients[a.n].calls ==> s.clients[a.n].calls[a.x].done)
    && (a.Call? && a.n in s.clients && a.proc == BIND ==> s.clients[a.n].xid == 1)
  }

  ghost predicate CalmRun(ss: seq<System>, acts: seq<Action>) {
    Run(ss, acts) && forall i :: 0 <= i < |acts| ==> Calm(ss[i], acts[i])
  }

  ghost predicate OneBind(cs: Clients, issued: Issued) {
    && (forall id :: id in issued ==> (issued[id].h.proc == BIND <==> id.xid == 1))
    && (forall n :: n in cs && cs[n].bindDone ==> 1 in Finished(cs[n]))
    && (forall n :: n in cs && cs[n].xid >= 3 ==> cs[n].bindDone)
  }

  /** Every call a client is finished with was admitted by the server. */
  ghost predicate FinishedWereAdmitted(cs: Clients, inc: nat, log: seq<Admission>) {
    forall n, x :: n in cs && x in Finished(cs[n]) ==> WasAdmitted(log, inc, n, x)
  }

  /** Some admitted request of client n carried xid_rep f. */
  ghost predicate Acknowledged(log: seq<Admission>, n: nat, f: nat) {
    exists j :: 0 <= j < |log| && log[j].req.h.cltNonce == n && log[j].req.h.xidRep == f
  }

  /** A window's front is an acknowledged xid, or still the bind. */
  ghost predicate FrontsAcknowledged(sv: Server, log: seq<Admission>) {
    forall n: nat :: WindowOf(sv, n) != [] ==>
      WindowOf(sv, n)[0].xid == 1 || Acknowledged(log, n, WindowOf(sv, n)[0].xid)
  }

  /** Protocol errors only ever go to calls that are already finished. */
  ghost predicate ErrorsAreLate(cs: Clients, replies: set<Envelope>) {
    forall e :: e in replies && e.reply.ret < 0 ==> e.clt in cs && e.reply.xid in Finished(cs[e.clt])
  }

  ghost predicate CalmInv(s: System) {
    && s.past == {}
    && OneBind(s.clients, s.issued)
    && FinishedWereAdmitted(s.clients, s.server.nonce, s.log)
    && FrontsAcknowledged(s.server, s.log)
    && ErrorsAreLate(s.clients, s.replies)
  }

  // ---- client actions ----

  lemma FinishedGrows(s: System, a: Action, n: nat)
    requires ClientsInv(s.clients) && Enabled(s, a) && ByClient(a) && n in s.clients
    ensures n in Apply(s, a).clients && Finished(s.clients[n]) <= Finished(Apply(s, a).clients[n])
  {
    var c := s.clients[n];
    assert ClientOk(c);
    if a.n == n && a.Call? {
      CallLeavesFinished(c);
    } else if a.n == n && a.Deliver? {
      ReplyLeavesFinished(c, a.m);
    } else if a.n == n && a.Return? {
      ReturnLeavesFinished(c, a.x);
    }
  }

  lemma CallLeavesFinished(c: Client)
    requires ClientOk(c)
    ensures Finished(c) <= Finished(BeginCall(c))
  {
  }

  lemma ReplyLeavesFinished(c: Client, m: Reply)
    requires ClientOk(c)
    ensures Finished(c) <= Finished(GotPdu(c, m))
  {
  }

  lemma ReturnLeavesFinished(c: Client, x: nat)
    requires ClientOk(c)
    ensures Finished(c) <= Finished(EndCall(c, x))
  {
  }

  /** In a calm run only a delivered reply finishes a call. */
  lemma FinishedBy(s: System, a: Action, n: nat, x: nat)
    requires ClientsInv(s.clients) && Enabled(s, a) && ByClient(a) && Calm(s, a) && n in s.clients
    requires x in Finished(Apply(s, a).clients[n])
    ensures x in Finished(s.clients[n]) || (a.Deliver? && n == a.n && x == a.m.xid)
  {
    assert ClientOk(s.clients[n]);
    if a.Deliver? && n == a.n {
      FinishedByReply(s.clients[n], a.m, x);
    }
  }

  lemma FinishedByReply(c: Client, m: Reply, x: nat)
    requires ClientOk(c) && x in Finished(GotPdu(c, m))
    ensures x in Finished(c) || x == m.xid
  {
  }

  lemma DeliveredWasAdmitted(s: System, n: nat, m: Reply)
    requires RepliesInv(s.issued, s.log, s.execs, s.replies) && LogInv(s.issued, {s.server.nonce}, s.log)
    requires CanDeliver(s, n, m) && m.ret >= 0
    ensures WasAdmitted(s.log, s.server.nonce, n, m.xid)
  {
    var e := Envelope(n, m);
    assert ReplyOk(s.issued, s.log, s.execs, e);
    var j: nat :| ProducedBy(s.log, s.execs, e, j);
    assert Admits(s.log[j], s.server.nonce, n, m.xid);
  }

  lemma ClientFinished(s: System, a: Action)
    requires ClientsInv(s.clients) && RepliesInv(s.issued, s.log, s.execs, s.replies)
    requires LogInv(s.issued, {s.server.nonce}, s.log)
    requires Enabled(s, a) && ByClient(a) && Calm(s, a)
    requires FinishedWereAdmitted(s.clients, s.server.nonce, s.log) && ErrorsAreLate(s.clients, s.replies)
    ensures FinishedWereAdmitted(Apply(s, a).clients, s.server.nonce, s.log)
    ensures ErrorsAreLate(Apply(s, a).clients, s.replies)
  {
    var cs' := Apply(s, a).clients;
    forall n, x | n in cs' && x in Finished(cs'[n]) ensures WasAdmitted(s.log, s.server.nonce, n, x) {
      FinishedBy(s, a, n, x);
      if x !in Finished(s.clients[n]) {
        if a.m.ret >= 0 {
          DeliveredWasAdmitted(s, n, a.m);
        }
      }
    }
    forall e | e in s.replies && e.reply.ret < 0 ensures e.clt in cs' && e.reply.xid in Finished(cs'[e.clt]) {
      FinishedGrows(s, a, e.clt);
    }
  }

  lemma BindIsFirst(s: System, n: nat, x: nat)
    requires CallersInv(s.clients, s.issued, s.returned, s.replies)
    requires IssuedInv(s.clients, s.issued, Incarnations(s)) && OneBind(s.clients, s.issued)
    requires CanBindDone(s, n, x)
    ensures 1 in Finished(s.clients[n])
  {
    assert HeaderOk(s.clients, Incarnations(s), CallId(n, x), s.issued[CallId(n, x)].h);
  }

  lemma CallOneBind(s: System, n: nat, proc: nat, args: Bytes)
    requires ClientsInv(s.clients) && CanCall(s, n, proc) && Calm(s, Call(n, proc, args))
    requires OneBind(s.clients, s.issued)
    ensures OneBind(CallStep(s, n, proc, args).clients, CallStep(s, n, proc, args).issued)
  {
    var c := s.clients[n];
    assert ClientOk(c);
    assert Finished(BeginCall(c)) == Finished(c);
    assert 1 in Finished(c) ==> c.xid >= 2;
  }

  lemma OtherOneBind(s: System, a: Action, n: nat)
    requires ClientsInv(s.clients) && Enabled(s, a) && ByClient(a) && !a.Call? && OneBind(s.clients, s.issued)
    requires a.BindDone? ==> 1 in Finished(s.clients[a.n])
    requires n in s.clients
    ensures
      var c, c' := s.clients[n], Apply(s, a).clients[n];
      c'.xid == c.xid && (c'.bindDone ==> 1 in Finished(c')) && (c.bindDone ==> c'.bindDone)
  {
    FinishedGrows(s, a, n);
  }

  lemma OtherFrame(s: System, a: Action)
    requires Enabled(s, a) && ByClient(a) && !a.Call?
    ensures Apply(s, a).issued == s.issued && Apply(s, a).clients.Keys == s.clients.Keys
  {
  }

  lemma ClientOneBind(s: System, a: Action)
    requires ClientsInv(s.clients) && Enabled(s, a) && ByClient(a) && Calm(s, a)
    requires a.BindDone? ==> 1 in Finished(s.clients[a.n])
    requires OneBind(s.clients, s.issued)
    ensures OneBind(Apply(s, a).clients, Apply(s, a).issued)
  {
    if a.Call? {
      CallOneBind(s, a.n, a.proc, a.args);
    } else {
      OtherFrame(s, a);
      var cs' := Apply(s, a).clients;
      forall n | n in cs'
        ensures (cs'[n].bindDone ==> 1 in Finished(cs'[n])) && (cs'[n].xid >= 3 ==> cs'[n].bindDone)
      {
        assert n in s.clients;
        OtherOneBind(s, a, n);
      }
    }
  }

  // ---- server actions ----

  lemma AdmittedStays(log: seq<Admission>, a: Admission, inc: nat, n: nat, x: nat)
    requires WasAdmitted(log, inc, n, x)
    ensures WasAdmitted(log + [a], inc, n, x)
  {
    var j :| 0 <= j < |log| && Admits(log[j], inc, n, x);
    assert Admits((log + [a])[j], inc, n, x);
  }

  lemma AdmittedIsRemembered(sv: Server, log: seq<Admission>, n: nat, x: nat)
    requires WindowsInv(sv, log) && WasAdmitted(log, sv.nonce, n, x)
    ensures WindowOf(sv, n) != [] && (x in RW.Entries(WindowOf(sv, n)) || x < WindowOf(sv, n)[0].xid)
  {
    var j :| 0 <= j < |log| && Admits(log[j], sv.nonce, n, x);
    assert Remembered(sv, log[j].req.h);
  }

  /** A NEW request finds its xid_rep in the window, so the front lands exactly on it. */
  lemma NewFront(sv: Server, log: seq<Admission>, r: Request)
    requires WindowsInv(sv, log) && StatusOf(sv, r.h).New? && 1 <= r.h.xid && r.h.xidRep < r.h.xid
    requires r.h.xidRep >= 1 ==> WasAdmitted(log, sv.nonce, r.h.cltNonce, r.h.xidRep)
    requires r.h.xid >= 2 ==> WasAdmitted(log, sv.nonce, r.h.cltNonce, 1)
    ensures
      var w, w' := WindowOf(sv, r.h.cltNonce), WindowOf(CheckRequest(sv, r.h), r.h.cltNonce);
      w' != [] && (w'[0].xid == r.h.xidRep || (w == [] && w'[0].xid == 1) || (w != [] && w'[0].xid == w[0].xid))
  {
    var h := r.h;
    var w := WindowOf(sv, h.cltNonce);
    RW.CheckMeaning(w, h.xid, h.xidRep);
    if h.xid >= 2 {
      AdmittedIsRemembered(sv, log, h.cltNonce, 1);
    }
    if h.xidRep >= 1 {
      AdmittedIsRemembered(sv, log, h.cltNonce, h.xidRep);
    }
    RW.EntriesKeys(RW.Check(w, h.xid, h.xidRep), h.xidRep);
  }

  lemma AdmitFronts(sv: Server, log: seq<Admission>, r: Request)
    requires WindowsInv(sv, log) && StatusOf(sv, r.h).New? && 1 <= r.h.xid && r.h.xidRep < r.h.xid
    requires r.h.xidRep >= 1 ==> WasAdmitted(log, sv.nonce, r.h.cltNonce, r.h.xidRep)
    requires r.h.xid >= 2 ==> WasAdmitted(log, sv.nonce, r.h.cltNonce, 1)
    requires FrontsAcknowledged(sv, log)
    ensures FrontsAcknowledged(CheckRequest(sv, r.h), log + [Admission(sv.nonce, r)])
  {
    var sv' := CheckRequest(sv, r.h);
    var log' := log + [Admission(sv.nonce, r)];
    NewFront(sv, log, r);
    forall n: nat | WindowOf(sv', n) != []
      ensures WindowOf(sv', n)[0].xid == 1 || Acknowledged(log', n, WindowOf(sv', n)[0].xid)
    {
      var f := WindowOf(sv', n)[0].xid;
      if n == r.h.cltNonce && f == r.h.xidRep {
        assert log'[|log|].req.h.xidRep == f;
      } else if f != 1 {
        assert WindowOf(sv, n) != [] && WindowOf(sv, n)[0].xid == f;
        assert Acknowledged(log, n, f);
        var j :| 0 <= j < |log| && log[j].req.h.cltNonce == n && log[j].req.h.xidRep == f;
        assert log'[j] == log[j];
      }
    }
  }

  /** What a calm state says about the request being dispatched. */
  lemma CalmRequest(s: System, r: Request)
    requires Inv(s) && CalmInv(s) && r in s.requests
    ensures IsIssued(s.issued, r) && 1 <= r.h.xid && r.h.xidRep < r.h.xid && !WrongIncarnation(s.server, r.h)
    ensures r.h.cltNonce in s.clients && |s.clients[r.h.cltNonce].window| > 0
    ensures r.h.xidRep >= 1 ==> WasAdmitted(s.log, s.server.nonce, r.h.cltNonce, r.h.xidRep)
    ensures r.h.xid >= 2 ==> WasAdmitted(s.log, s.server.nonce, r.h.cltNonce, 1)
  {
    RpcOneIncarnation.RightIncarnation(s, r);
    assert HeaderOk(s.clients, Incarnations(s), IdOf(r), r.h);
    var c := s.clients[r.h.cltNonce];
    assert ClientOk(c);
    if r.h.xidRep >= 1 {
      assert r.h.xidRep in Finished(c);
    }
  }

  /** A front that is acknowledged lies below everything its client still waits for. */
  lemma FrontBelowLive(s: System, n: nat, x: nat)
    requires ClientsInv(s.clients) && IssuedInv(s.clients, s.issued, Incarnations(s))
    requires LogInv(s.issued, Incarnations(s), s.log) && FrontsAcknowledged(s.server, s.log)
    requires n in s.clients && 1 <= x && WindowOf(s.server, n) != [] && x < WindowOf(s.server, n)[0].xid
    ensures x in Finished(s.clients[n])
  {
    var f := WindowOf(s.server, n)[0].xid;
    var j :| 0 <= j < |s.log| && s.log[j].req.h.cltNonce == n && s.log[j].req.h.xidRep == f;
    var r := s.log[j].req;
    assert IsIssued(s.issued, r);
    assert HeaderOk(s.clients, Incarnations(s), IdOf(r), r.h);
    assert ClientOk(s.clients[n]);
  }

  lemma ForgottenIsFinished(s: System, r: Request)
    requires Inv(s) && CalmInv(s) && r in s.requests && StatusOf(s.server, r.h).Forgotten?
    ensures r.h.cltNonce in s.clients && r.h.xid in Finished(s.clients[r.h.cltNonce])
  {
    CalmRequest(s, r);
    RW.ClassifyMeaning(WindowOf(s.server, r.h.cltNonce), r.h.xid);
    FrontBelowLive(s, r.h.cltNonce, r.h.xid);
  }

  lemma SameFrontsAcknowledged(sv: Server, sv': Server, log: seq<Admission>)
    requires FrontsAcknowledged(sv, log) && sv.windows == sv'.windows
    ensures FrontsAcknowledged(sv', log)
  {
    RpcOneIncarnation.SameFronts(sv, sv');
  }

  lemma DispatchFrontsAcknowledged(s: System, r: Request)
    requires WindowsInv(s.server, s.log) && FrontsAcknowledged(s.server, s.log)
    requires 1 <= r.h.xid && r.h.xidRep < r.h.xid && !WrongIncarnation(s.server, r.h)
    requires r.h.xidRep >= 1 ==> WasAdmitted(s.log, s.server.nonce, r.h.cltNonce, r.h.xidRep)
    requires r.h.xid >= 2 ==> WasAdmitted(s.log, s.server.nonce, r.h.cltNonce, 1)
    ensures FrontsAcknowledged(DispatchStep(s, r).server, DispatchStep(s, r).log)
  {
    var log' := DispatchStep(s, r).log;
    DispatchLog(s, r);
    assert FrontsAcknowledged(CheckRequest(s.server, r.h), log') by {
      if StatusOf(s.server, r.h).New? {
        AdmitFronts(s.server, s.log, r);
      } else {
        RepeatedFronts(s.server, s.log, r.h);
      }
    }
    RpcOneIncarnation.DispatchServer(s, r);
    SameFrontsAcknowledged(CheckRequest(s.server, r.h), DispatchStep(s, r).server, log');
  }

  /** A request that is not NEW leaves every window as it was. */
  lemma RepeatedFronts(sv: Server, log: seq<Admission>, h: Header)
    requires WindowsInv(sv, log) && FrontsAcknowledged(sv, log) && !StatusOf(sv, h).New?
    ensures FrontsAcknowledged(CheckRequest(sv, h), log)
  {
    CheckedWindows(sv, h);
  }

  lemma DispatchLog(s: System, r: Request)
    ensures DispatchStep(s, r).log == s.log + if ToldNew(s, r) then [Admission(s.server.nonce, r)] else []
  {
  }

  lemma AnswerErrors(s: System, r: Request)
    requires Inv(s) && CalmInv(s) && r in s.requests && RpcOneIncarnation.AnswerOf(s, r).Some?
    ensures
      var m := RpcOneIncarnation.AnswerOf(s, r).value;
      m.ret >= 0 || (m.xid == r.h.xid && r.h.cltNonce in s.clients && r.h.xid in Finished(s.clients[r.h.cltNonce]))
  {
    CalmRequest(s, r);
    if StatusOf(s.server, r.h).Forgotten? {
      ForgottenIsFinished(s, r);
    } else if StatusOf(s.server, r.h).Done? {
      DoneIsNoError(s, r.h);
    }
  }

  lemma DispatchErrors(s: System, r: Request)
    requires ErrorsAreLate(s.clients, s.replies)
    requires RpcOneIncarnation.AnswerOf(s, r).Some? ==>
      var m := RpcOneIncarnation.AnswerOf(s, r).value;
      m.ret >= 0 || (m.xid == r.h.xid && r.h.cltNonce in s.clients && r.h.xid in Finished(s.clients[r.h.cltNonce]))
    ensures ErrorsAreLate(s.clients, DispatchStep(s, r).replies)
  {
    RpcOneIncarnation.DispatchReplies(s, r);
  }

  lemma DoneIsNoError(s: System, h: Header)
    requires ServerSide(s) && StatusOf(s.server, h).Done?
    ensures StatusOf(s.server, h).reply.ret >= 0
  {
    RW.ClassifyMeaning(WindowOf(s.server, h.cltNonce), h.xid);
    var j := StoredEntryIsSaved(s, h, StatusOf(s.server, h).reply);
    assert ExecOk(s.log, j, s.execs[j]);
  }

  lemma SendIsNoError(s: System, j: nat)
    requires ServerSide(s) && CanSend(s, j)
    ensures s.server.jobs[j].phase.reply.ret >= 0
  {
    assert JobOk(s.server, s.log, s.execs, j);
    assert ExecOk(s.log, j, s.execs[j]);
  }

  lemma RecordFrontsAcknowledged(s: System, j: nat)
    requires WindowsInv(s.server, s.log) && FrontsAcknowledged(s.server, s.log) && CanRecord(s, j)
    ensures FrontsAcknowledged(RecordStep(s, j).server, s.log)
  {
    var job := s.server.jobs[j];
    RecordWindows(s.server, job.req.h, job.phase.reply);
    RpcOneIncarnation.SameFronts(AddReply(s.server, job.req.h, job.phase.reply), RecordStep(s, j).server);
  }

  lemma DispatchFinished(s: System, r: Request)
    requires FinishedWereAdmitted(s.clients, s.server.nonce, s.log)
    ensures FinishedWereAdmitted(s.clients, s.server.nonce, DispatchStep(s, r).log)
  {
    DispatchLog(s, r);
    if ToldNew(s, r) {
      forall n, x | n in s.clients && x in Finished(s.clients[n])
        ensures WasAdmitted(DispatchStep(s, r).log, s.server.nonce, n, x)
      {
        AdmittedStays(s.log, Admission(s.server.nonce, r), s.server.nonce, n, x);
      }
    }
  }

  lemma DispatchCalm(s: System, r: Request)
    requires Inv(s) && CalmInv(s) && r in s.requests
    ensures CalmInv(DispatchStep(s, r))
  {
    CalmRequest(s, r);
    DispatchFrontsAcknowledged(s, r);
    if RpcOneIncarnation.AnswerOf(s, r).Some? {
      AnswerErrors(s, r);
    }
    DispatchErrors(s, r);
    DispatchFinished(s, r);
    DispatchFrame(s, r);
    RpcOneIncarnation.ServerActionClients(s, Dispatch(r));
  }

  lemma SendErrors(cs: Clients, replies: set<Envelope>, n: nat, m: Reply)
    requires ErrorsAreLate(cs, replies) && m.ret >= 0
    ensures ErrorsAreLate(cs, replies + {Envelope(n, m)})
  {
  }

  lemma SendCalm(s: System, j: nat)
    requires ServerSide(s) && CalmInv(s) && CanSend(s, j)
    ensures CalmInv(SendStep(s, j))
  {
    var job := s.server.jobs[j];
    SendIsNoError(s, j);
    SendErrors(s.clients, s.replies, job.req.h.cltNonce, job.phase.reply);
    SameFrontsAcknowledged(s.server, SendStep(s, j).server, s.log);
  }

  lemma ServerActionCalm(s: System, a: Action)
    requires Inv(s) && CalmInv(s) && Enabled(s, a) && !ByClient(a) && !a.Restart?
    ensures CalmInv(Apply(s, a))
  {
    match a {
      case Dispatch(r) => DispatchCalm(s, r);
      case Execute(j, ret, body) => SameFrontsAcknowledged(s.server, ExecuteStep(s, j, ret, body).server, s.log);
      case Record(j) => RecordFrontsAcknowledged(s, j);
      case Send(j) => SendCalm(s, j);
    }
  }

  lemma ClientActionCalm(s: System, a: Action)
    requires Inv(s) && CalmInv(s) && Enabled(s, a) && ByClient(a) && Calm(s, a)
    ensures CalmInv(Apply(s, a))
  {
    assert Incarnations(s) == {s.server.nonce};
    ClientFinished(s, a);
    if a.BindDone? {
      BindIsFirst(s, a.n, a.x);
    }
    ClientOneBind(s, a);
    ClientActionFrame(s, a);
  }

  lemma ClientActionFrame(s: System, a: Action)
    requires Enabled(s, a) && ByClient(a)
    ensures
      var s' := Apply(s, a);
      s'.server == s.server && s'.past == s.past && s'.log == s.log && s'.replies == s.replies
  {
  }

  lemma InitCalm(s: System)
    requires Init(s)
    ensures CalmInv(s)
  {
  }

  lemma RunStepCalm(ss: seq<System>, acts: seq<Action>, i: nat)
    requires CalmRun(ss, acts) && i < |acts| && CalmInv(ss[i])
    ensures CalmInv(ss[i + 1])
  {
    assert Next(ss[i], acts[i], ss[i + 1]) && Calm(ss[i], acts[i]);
    RunKeeps(ss, acts, i);
    if ByClient(acts[i]) {
      ClientActionCalm(ss[i], acts[i]);
    } else {
      ServerActionCalm(ss[i], acts[i]);
    }
  }

  lemma {:induction false} RunCalm(ss: seq<System>, acts: seq<Action>, i: nat)
    requires CalmRun(ss, acts) && i < |ss|
    ensures CalmInv(ss[i])
  {
    if i == 0 {
      InitCalm(ss[0]);
    } else {
      RunCalm(ss, acts, i - 1);
      RunStepCalm(ss, acts, i - 1);
    }
  }

  /** In a calm state the window still holds the xid a new request acknowledges. */
  lemma CalmAdmissionLeavesSentinel(s: System, r: Request)
    requires Inv(s) && CalmInv(s) && r in s.requests
    ensures RpcLiveCalls.LeavesSentinel(s, r)
  {
    CalmRequest(s, r);
    var w := WindowOf(s.server, r.h.cltNonce);
    if ToldNew(s, r) && r.h.xid >= 2 {
      AdmittedIsRemembered(s.server, s.log, r.h.cltNonce, 1);
    }
    if ToldNew(s, r) && r.h.xidRep >= 1 {
      AdmittedIsRemembered(s.server, s.log, r.h.cltNonce, r.h.xidRep);
    }
  }

  lemma CalmRunHasSentinels(ss: seq<System>, acts: seq<Action>)
    requires CalmRun(ss, acts)
    ensures RpcLiveCalls.SentinelRun(ss, acts)
  {
    forall i | 0 <= i < |acts| && acts[i].Dispatch? ensures RpcLiveCalls.LeavesSentinel(ss[i], acts[i].r) {
      assert Next(ss[i], acts[i], ss[i + 1]);
      RunKeeps(ss, acts, i);
      RunCalm(ss, acts, i);
      CalmAdmissionLeavesSentinel(ss[i], acts[i].r);
    }
  }

  /** No live call is forgotten: whatever is lost, duplicated or reordered, a request
      whose caller still waits is never answered FORGOTTEN. */
  lemma NoLiveCallIsForgotten(ss: seq<System>, acts: seq<Action>, i: nat, r: Request)
    requires CalmRun(ss, acts) && i < |ss| && r in ss[i].requests && Waiting(ss[i], IdOf(r))
    ensures !WrongIncarnation(ss[i].server, r.h) && !StatusOf(ss[i].server, r.h).Forgotten?
  {
    CalmRunHasSentinels(ss, acts);
    RpcLiveCalls.SentinelsKeepLiveCalls(ss, acts, i, r.h);
    RunKeeps(ss, acts, i);
    RunCalm(ss, acts, i);
    CalmRequest(ss[i], r);
  }

  /** The front of a client's window is the largest xid_rep the server has admitted from
      that client, or 1, the bind's xid. */
  lemma FrontIsLargestAcknowledged(ss: seq<System>, acts: seq<Action>, i: nat, n: nat)
    requires CalmRun(ss, acts) && i < |ss| && WindowOf(ss[i].server, n) != []
    ensures
      var f := WindowOf(ss[i].server, n)[0].xid;
      && (f == 1 || Acknowledged(ss[i].log, n, f))
      && (forall j :: 0 <= j < |ss[i].log| && ss[i].log[j].req.h.cltNonce == n ==> ss[i].log[j].req.h.xidRep <= f)
  {
    RunKeeps(ss, acts, i);
    RunCalm(ss, acts, i);
    var s := ss[i];
    forall j | 0 <= j < |s.log| && s.log[j].req.h.cltNonce == n
      ensures s.log[j].req.h.xidRep <= WindowOf(s.server, n)[0].xid
    {
      assert Remembered(s.server, s.log[j].req.h);
    }
  }
}
