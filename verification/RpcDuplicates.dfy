/** Calls that have their answer are never executed again, and the deliberate duplicate of
    lossy testing is refused.  Both hold over any number of restarts. */
module RpcDuplicates {
  import opened Basics
  import opened RpcTypes
  import opened Wire
  import opened RpcProtocol
  import opened RpcInvariant
  import opened RpcClientSteps
  import opened RpcServerSteps
  import opened RpcTheorems
  import opened RpcOneIncarnation
  import RW = ReplyWindow

  // ---- an answered call is never told NEW again ----

  /** The incarnation a non-bind call was made for, if it still runs, refuses the call. */
  ghost predicate RefusedAtHome(sv: Server, h: Header) {
    h.proc != BIND && h.srvNonce == sv.nonce ==> StatusOf(sv, h).Forgotten?
  }

  /** Errors are final: a call that was answered with one is refused ever after. */
  ghost predicate ErrorsFinal(s: System) {
    forall e :: e in s.replies && e.reply.ret < 0 && CallId(e.clt, e.reply.xid) in s.issued ==>
      RefusedAtHome(s.server, s.issued[CallId(e.clt, e.reply.xid)].h)
  }

  lemma RefusedForGood(s: System, s': System, id: CallId, h: Header)
    requires FrontsGrow(s, s') && Extends(s, s') && NoncesInv(s'.server.nonce, s'.past, s'.clients)
    requires s'.server.nonce == s.server.nonce ==> s'.past == s.past
    requires HeaderOk(s.clients, Incarnations(s), id, h) && RefusedAtHome(s.server, h)
    requires forall n: nat :: RW.Sorted(WindowOf(s.server, n)) && RW.Sorted(WindowOf(s'.server, n))
    ensures RefusedAtHome(s'.server, h)
  {
    if h.proc != BIND && h.srvNonce == s'.server.nonce {
      assert s'.server.nonce == s.server.nonce;
      var w, w' := WindowOf(s.server, h.cltNonce), WindowOf(s'.server, h.cltNonce);
      RW.ClassifyMeaning(w, h.xid);
      assert FrontReached(s'.server, h.cltNonce, w[0].xid);
      RW.ClassifyMeaning(w', h.xid);
    }
  }

  /** A new error answer is given by dispatch, to a call it refuses. */
  lemma DispatchRefuses(s: System, r: Request, e: Envelope)
    requires ServerSide(s) && e in DispatchStep(s, r).replies && e !in s.replies && e.reply.ret < 0
    ensures CallId(e.clt, e.reply.xid) == IdOf(r) && RefusedAtHome(DispatchStep(s, r).server, r.h)
  {
    DispatchReplies(s, r);
    DispatchServer(s, r);
    DispatchFrame(s, r);
    if !WrongIncarnation(s.server, r.h) && StatusOf(s.server, r.h).Done? {
      DoneReplyIsNoError(s, r.h);
    }
  }

  lemma NewErrorRefuses(s: System, a: Action, e: Envelope)
    requires NetworkInv(s.clients, s.issued, s.returned, s.requests) && ServerSide(s)
    requires Enabled(s, a) && e in Apply(s, a).replies && e !in s.replies && e.reply.ret < 0
    ensures a.Dispatch? && IsIssued(s.issued, a.r) && IdOf(a.r) == CallId(e.clt, e.reply.xid)
    ensures RefusedAtHome(DispatchStep(s, a.r).server, a.r.h)
  {
    if a.Dispatch? {
      DispatchRefuses(s, a.r, e);
    } else if a.Send? {
      SentReplyIsNoError(s, a.j);
    } else {
      OtherReplies(s, a);
    }
  }

  lemma DoneReplyIsNoError(s: System, h: Header)
    requires ServerSide(s) && StatusOf(s.server, h).Done?
    ensures StatusOf(s.server, h).reply.ret >= 0
  {
    RW.ClassifyMeaning(WindowOf(s.server, h.cltNonce), h.xid);
    assert WasAdmitted(s.log, s.server.nonce, h.cltNonce, h.xid);
    var j :| 0 <= j < |s.log| && Admits(s.log[j], s.server.nonce, h.cltNonce, h.xid);
    assert EntryOk(s.server, s.log, s.execs, j);
    assert ExecOk(s.log, j, s.execs[j]);
  }

  lemma SentReplyIsNoError(s: System, j: nat)
    requires ServerSide(s) && CanSend(s, j)
    ensures s.server.jobs[j].phase.reply.ret >= 0
  {
    assert JobOk(s.server, s.log, s.execs, j);
    assert ExecOk(s.log, j, s.execs[j]);
  }

  lemma OnlyRestartEndsIncarnation(s: System, a: Action)
    requires Enabled(s, a)
    ensures Apply(s, a).server.nonce == s.server.nonce ==> Apply(s, a).past == s.past
  {
    if ByClient(a) {
      ClientActionServer(s, a);
    } else if a.Dispatch? {
      DispatchFrame(s, a.r);
    }
  }

  lemma OldErrorFinal(s: System, s': System, e: Envelope)
    requires FrontsGrow(s, s') && Extends(s, s') && NoncesInv(s'.server.nonce, s'.past, s'.clients)
    requires s'.server.nonce == s.server.nonce ==> s'.past == s.past
    requires IssuedInv(s.clients, s.issued, Incarnations(s)) && ErrorsFinal(s)
    requires forall n: nat :: RW.Sorted(WindowOf(s.server, n)) && RW.Sorted(WindowOf(s'.server, n))
    requires e in s.replies && e.reply.ret < 0 && CallId(e.clt, e.reply.xid) in s.issued
    ensures CallId(e.clt, e.reply.xid) in s'.issued
    ensures RefusedAtHome(s'.server, s'.issued[CallId(e.clt, e.reply.xid)].h)
  {
    var id := CallId(e.clt, e.reply.xid);
    RefusedForGood(s, s', id, s.issued[id].h);
  }

  lemma NewErrorFinal(s: System, a: Action, e: Envelope)
    requires NetworkInv(s.clients, s.issued, s.returned, s.requests) && ServerSide(s)
    requires Enabled(s, a) && e in Apply(s, a).replies && e !in s.replies && e.reply.ret < 0
    ensures CallId(e.clt, e.reply.xid) in Apply(s, a).issued
    ensures RefusedAtHome(Apply(s, a).server, Apply(s, a).issued[CallId(e.clt, e.reply.xid)].h)
  {
    NewErrorRefuses(s, a, e);
    DispatchFrame(s, a.r);
  }

  lemma NextErrorsFinal(s: System, a: Action, s': System)
    requires Inv(s) && Inv(s') && Next(s, a, s') && FrontsGrow(s, s') && Extends(s, s') && ErrorsFinal(s)
    ensures ErrorsFinal(s')
  {
    RepliesAreIssued(s);
    OnlyRestartEndsIncarnation(s, a);
    forall e | e in s'.replies && e.reply.ret < 0 && CallId(e.clt, e.reply.xid) in s'.issued
      ensures RefusedAtHome(s'.server, s'.issued[CallId(e.clt, e.reply.xid)].h)
    {
      if e in s.replies {
        OldErrorFinal(s, s', e);
      } else {
        NewErrorFinal(s, a, e);
      }
    }
  }

  lemma RunStepErrors(ss: seq<System>, acts: seq<Action>, i: nat)
    requires Run(ss, acts) && i < |acts| && ErrorsFinal(ss[i])
    ensures ErrorsFinal(ss[i + 1])
  {
    assert Next(ss[i], acts[i], ss[i + 1]);
    RunKeeps(ss, acts, i);
    RunKeeps(ss, acts, i + 1);
    RunStepFronts(ss, acts, i);
    RunStepExtends(ss, acts, i);
    NextErrorsFinal(ss[i], acts[i], ss[i + 1]);
  }

  lemma {:induction false} RunErrors(ss: seq<System>, acts: seq<Action>, i: nat)
    requires Run(ss, acts) && i < |ss|
    ensures ErrorsFinal(ss[i])
  {
    if i > 0 {
      RunErrors(ss, acts, i - 1);
      RunStepErrors(ss, acts, i - 1);
    }
  }

  /** In a state where call id was answered, its incarnation, if it runs, never says NEW. */
  lemma AnsweredNow(s: System, id: CallId, e: Envelope)
    requires Inv(s) && ErrorsFinal(s) && id in s.issued && s.issued[id].h.proc != BIND
    requires e in s.replies && CallId(e.clt, e.reply.xid) == id
    ensures !ToldNew(s, s.issued[id])
  {
    var r := s.issued[id];
    assert HeaderOk(s.clients, Incarnations(s), id, r.h);
    if e.reply.ret >= 0 && r.h.srvNonce == s.server.nonce && StatusOf(s.server, r.h).New? {
      assert ReplyOk(s.issued, s.log, s.execs, e);
      var j: nat :| ProducedBy(s.log, s.execs, e, j);
      assert IsIssued(s.issued, s.log[j].req);
      NewIsNew(s.server, s.log, r.h, j);
    }
  }

  /** Once the caller of a non-bind call has an answer, no incarnation ever runs the call
      again, over any number of restarts. */
  lemma AnsweredIsNeverNew(ss: seq<System>, acts: seq<Action>, i: nat, k: nat, id: CallId)
    requires Run(ss, acts) && i <= k < |ss| && id in ss[i].returned && ss[i].returned[id].done
    requires id in ss[i].issued && ss[i].issued[id].h.proc != BIND
    ensures !ToldNew(ss[k], ss[i].issued[id])
  {
    RunExtends(ss, acts, i, k);
    RunKeeps(ss, acts, k);
    RunErrors(ss, acts, k);
    var ca := ss[k].returned[id];
    assert CallerOk(ss[k].replies, id, ca);
    AnsweredNow(ss[k], id, Envelope(id.clt, Reply(id.xid, ca.intret, ca.un)));
  }

  // ---- the lossy-test duplicate ----

  /** A saved duplicate is a request whose caller had its answer. */
  ghost predicate DuplicatesAnswered(s: System) {
    forall n :: n in s.clients && s.clients[n].dupReq.Some? ==>
      var id := IdOf(s.clients[n].dupReq.value);
      id in s.returned && s.returned[id].done && IsIssued(s.issued, s.clients[n].dupReq.value)
  }

  lemma NextDuplicatesAnswered(s: System, a: Action, s': System)
    requires Inv(s) && Next(s, a, s') && Extends(s, s') && DuplicatesAnswered(s)
    ensures DuplicatesAnswered(s')
  {
    if ByClient(a) {
      ClientDuplicatesAnswered(s, a);
    } else {
      ServerActionClients(s, a);
    }
  }

  lemma DuplicateComesFrom(s: System, a: Action, n: nat)
    requires Enabled(s, a) && ByClient(a) && n in Apply(s, a).clients
    ensures n in s.clients
    ensures
      var d, d' := s.clients[n].dupReq, Apply(s, a).clients[n].dupReq;
      d' == d || d' == None || (a.SaveDup? && d' == Some(s.issued[CallId(a.n, a.x)]))
  {
  }

  lemma ClientDuplicatesAnswered(s: System, a: Action)
    requires IssuedInv(s.clients, s.issued, Incarnations(s)) && DuplicatesAnswered(s)
    requires Enabled(s, a) && ByClient(a) && Extends(s, Apply(s, a))
    ensures DuplicatesAnswered(Apply(s, a))
  {
    var s' := Apply(s, a);
    forall n | n in s'.clients && s'.clients[n].dupReq.Some?
      ensures
        var id := IdOf(s'.clients[n].dupReq.value);
        id in s'.returned && s'.returned[id].done && IsIssued(s'.issued, s'.clients[n].dupReq.value)
    {
      DuplicateComesFrom(s, a, n);
      if a.SaveDup? {
        assert HeaderOk(s.clients, Incarnations(s), CallId(a.n, a.x), s.issued[CallId(a.n, a.x)].h);
      }
    }
  }

  lemma RunStepDuplicatesAnswered(ss: seq<System>, acts: seq<Action>, i: nat)
    requires Run(ss, acts) && i < |acts| && DuplicatesAnswered(ss[i])
    ensures DuplicatesAnswered(ss[i + 1])
  {
    assert Next(ss[i], acts[i], ss[i + 1]);
    RunKeeps(ss, acts, i);
    RunStepExtends(ss, acts, i);
    NextDuplicatesAnswered(ss[i], acts[i], ss[i + 1]);
  }

  lemma {:induction false} RunDuplicatesAnswered(ss: seq<System>, acts: seq<Action>, i: nat)
    requires Run(ss, acts) && i < |ss|
    ensures DuplicatesAnswered(ss[i])
  {
    if i > 0 {
      RunDuplicatesAnswered(ss, acts, i - 1);
      RunStepDuplicatesAnswered(ss, acts, i - 1);
    }
  }

  /** The request lossy testing sends a second time on purpose is never executed again,
      unless it was a bind, whatever restarts happen. */
  lemma LossyDuplicateIsNeverNew(ss: seq<System>, acts: seq<Action>, i: nat, k: nat, n: nat)
    requires Run(ss, acts) && i <= k < |ss| && CanTransmitDuplicate(ss[i], n)
    requires ss[i].clients[n].dupReq.value.h.proc != BIND
    ensures !ToldNew(ss[k], ss[i].clients[n].dupReq.value)
  {
    var r := ss[i].clients[n].dupReq.value;
    RunDuplicatesAnswered(ss, acts, i);
    assert IdOf(r) in ss[i].returned;
    AnsweredIsNeverNew(ss, acts, i, k, IdOf(r));
  }

  // ---- and FORGOTTEN, for a client that only ever knew one incarnation ----

  /** A client never trusts its duplicate earlier than it acknowledges. */
  ghost predicate DoneBelowFront(cs: Clients) {
    forall n :: n in cs ==> |cs[n].window| > 0 && cs[n].xidRepDone <= cs[n].window[0]
  }

  ghost predicate HomeNonce(x: nat, nonce: nat) {
    x == 0 || x == nonce
  }

  /** Client n has only ever had to do with the running incarnation. */
  ghost predicate AtHome(s: System, n: nat) {
    && n in s.clients && HomeNonce(s.clients[n].srvNonce, s.server.nonce)
    && (forall id :: id in s.issued && id.clt == n ==> HomeNonce(s.issued[id].h.srvNonce, s.server.nonce))
    && (forall j :: 0 <= j < |s.log| && s.log[j].req.h.cltNonce == n ==> s.log[j].inc == s.server.nonce)
  }

  /** The server has taken in what each answered request of client n acknowledged. */
  ghost predicate AnswersTakenIn(sv: Server, issued: Issued, replies: set<Envelope>, n: nat) {
    forall e :: e in replies && e.clt == n && CallId(n, e.reply.xid) in issued ==>
      FrontReached(sv, n, issued[CallId(n, e.reply.xid)].h.xidRep)
  }

  ghost predicate DoneTakenIn(sv: Server, cs: Clients, n: nat) {
    n in cs && cs[n].xidRepDone >= 0 ==> FrontReached(sv, n, cs[n].xidRepDone)
  }

  ghost predicate HomeInv(s: System, n: nat) {
    && AtHome(s, n)
    && AnswersTakenIn(s.server, s.issued, s.replies, n)
    && DoneTakenIn(s.server, s.clients, n)
  }

  lemma FreshClientHome(s: System, n: nat)
    requires Inv(s) && n in s.clients && s.clients[n] == InitClient(n)
    ensures HomeInv(s, n)
  {
    forall id | id in s.issued ensures id.clt != n {
      assert HeaderOk(s.clients, Incarnations(s), id, s.issued[id].h);
    }
    forall j | 0 <= j < |s.log| ensures s.log[j].req.h.cltNonce != n {
      assert IsIssued(s.issued, s.log[j].req);
    }
    RepliesAreIssued(s);
  }

  /** The nonce a client at home binds to is that of the running incarnation. */
  lemma BindsHome(s: System, n: nat, x: nat)
    requires Inv(s) && AtHome(s, n) && CanBindDone(s, n, x)
    ensures Unpack32(s.returned[CallId(n, x)].un) == s.server.nonce
  {
    BindCarriesNonce(s, n, x);
    var v := Unpack32(s.returned[CallId(n, x)].un);
    var j :| 0 <= j < |s.log| && IdOf(s.log[j].req) == CallId(n, x) && s.log[j].inc == v;
  }

  lemma BindFrame(s: System, n: nat, m: nat, x: nat)
    requires AtHome(s, n) && CanBindDone(s, m, x)
    requires m == n ==> Unpack32(s.returned[CallId(n, x)].un) == s.server.nonce
    ensures AtHome(BindDoneStep(s, m, x), n)
  {
  }

  lemma BindStaysHome(s: System, n: nat, m: nat, x: nat)
    requires Inv(s) && AtHome(s, n) && CanBindDone(s, m, x)
    ensures AtHome(BindDoneStep(s, m, x), n)
  {
    if m == n {
      BindsHome(s, n, x);
    }
    BindFrame(s, n, m, x);
  }

  lemma CallStaysHome(s: System, n: nat, m: nat, proc: nat, args: Bytes)
    requires ClientsInv(s.clients) && AtHome(s, n) && CanCall(s, m, proc)
    ensures AtHome(CallStep(s, m, proc, args), n)
  {
    assert ClientOk(s.clients[m]);
  }

  lemma OtherStaysHome(s: System, a: Action, n: nat)
    requires AtHome(s, n) && Enabled(s, a) && ByClient(a) && !a.Call? && !a.BindDone?
    ensures AtHome(Apply(s, a), n)
  {
  }

  lemma ClientStaysHome(s: System, a: Action, n: nat)
    requires Inv(s) && AtHome(s, n) && Enabled(s, a) && ByClient(a)
    ensures AtHome(Apply(s, a), n)
  {
    match a {
      case Call(m, proc, args) => CallStaysHome(s, n, m, proc, args);
      case BindDone(m, x) => BindStaysHome(s, n, m, x);
      case _ => OtherStaysHome(s, a, n);
    }
  }

  lemma ServerStaysHome(s: System, a: Action, n: nat)
    requires AtHome(s, n) && Enabled(s, a) && !ByClient(a) && !a.Restart?
    ensures AtHome(Apply(s, a), n)
  {
    if a.Dispatch? {
      DispatchFrame(s, a.r);
      DispatchLogs(s, a.r);
      ServerActionClients(s, a);
    }
  }

  lemma DispatchLogs(s: System, r: Request)
    ensures DispatchStep(s, r).log == s.log || DispatchStep(s, r).log == s.log + [Admission(s.server.nonce, r)]
  {
  }

  lemma AnswersFrame(s: System, s': System, n: nat)
    requires AnswersTakenIn(s.server, s.issued, s.replies, n) && ServerFrontsGrow(s.server, s'.server) && Extends(s, s')
    requires RepliesInv(s.issued, s.log, s.execs, s.replies)
    ensures AnswersTakenIn(s'.server, s'.issued, s.replies, n)
  {
    RepliesAreIssued(s);
    forall e | e in s.replies && e.clt == n
      ensures FrontReached(s'.server, n, s'.issued[CallId(n, e.reply.xid)].h.xidRep)
    {
      assert FrontReached(s.server, n, s.issued[CallId(n, e.reply.xid)].h.xidRep);
    }
  }

  lemma DispatchTakenIn(s: System, r: Request, sv': Server, n: nat)
    requires ServerSide(s) && IsIssued(s.issued, r) && r.h.xidRep < r.h.xid
    requires n == r.h.cltNonce ==> HomeNonce(r.h.srvNonce, s.server.nonce)
    requires AnswersTakenIn(sv', s.issued, s.replies, n) && ServerFrontsGrow(s.server, sv')
    ensures AnswersTakenIn(sv', s.issued, DispatchStep(s, r).replies, n)
  {
    DispatchReplies(s, r);
    if AnswerOf(s, r).Some? && r.h.cltNonce == n {
      AnsweredRequestTakenIn(s, r);
      if StatusOf(s.server, r.h).Done? {
        DoneReplyIsExecuted(s, r.h);
      }
      assert FrontReached(sv', n, WindowOf(s.server, n)[0].xid);
    }
  }

  lemma SendTakenIn(s: System, j: nat, n: nat)
    requires ServerSide(s) && CanSend(s, j) && AnswersTakenIn(s.server, s.issued, s.replies, n)
    ensures AnswersTakenIn(SendStep(s, j).server, s.issued, SendStep(s, j).replies, n)
  {
    var sv, sv' := s.server, SendStep(s, j).server;
    assert JobOk(sv, s.log, s.execs, j);
    assert ExecOk(s.log, j, s.execs[j]);
    assert IsIssued(s.issued, s.log[j].req);
    assert Remembered(sv, s.log[j].req.h);
    SameFronts(sv, sv');
    forall e | e in SendStep(s, j).replies && e.clt == n && CallId(n, e.reply.xid) in s.issued
      ensures FrontReached(sv', n, s.issued[CallId(n, e.reply.xid)].h.xidRep)
    {
      assert e in s.replies ==> FrontReached(sv, n, s.issued[CallId(n, e.reply.xid)].h.xidRep);
      assert WindowOf(sv', n) == WindowOf(sv, n);
    }
  }

  lemma NextAnswers(s: System, a: Action, s': System, n: nat)
    requires ServerSide(s) && Next(s, a, s') && ServerFrontsGrow(s.server, s'.server) && Extends(s, s')
    requires a.Dispatch? ==> IsIssued(s.issued, a.r) && a.r.h.xidRep < a.r.h.xid
    requires a.Dispatch? && a.r.h.cltNonce == n ==> HomeNonce(a.r.h.srvNonce, s.server.nonce)
    requires AnswersTakenIn(s.server, s.issued, s.replies, n)
    ensures AnswersTakenIn(s'.server, s'.issued, s'.replies, n)
  {
    AnswersFrame(s, s', n);
    if a.Dispatch? {
      DispatchFrame(s, a.r);
      DispatchTakenIn(s, a.r, s'.server, n);
    } else if a.Send? {
      SendTakenIn(s, a.j, n);
    } else {
      OtherReplies(s, a);
    }
  }

  lemma OtherXidRepDone(s: System, a: Action)
    requires Enabled(s, a) && !a.SaveDup?
    ensures
      var cs' := Apply(s, a).clients;
      forall n :: n in cs' ==> n in s.clients && cs'[n].xidRepDone == s.clients[n].xidRepDone
  {
    if !ByClient(a) {
      ServerActionClients(s, a);
    }
  }

  lemma SaveDupTakenIn(s: System, n: nat, m: nat, x: nat)
    requires CallersInv(s.clients, s.issued, s.returned, s.replies) && CanSaveDup(s, m, x)
    requires AnswersTakenIn(s.server, s.issued, s.replies, n) && DoneTakenIn(s.server, s.clients, n)
    ensures DoneTakenIn(s.server, SaveDupStep(s, m, x).clients, n)
  {
    if m == n {
      var id := CallId(n, x);
      assert CallerOk(s.replies, id, s.returned[id]);
      var e := Envelope(n, Reply(x, s.returned[id].intret, s.returned[id].un));
      assert FrontReached(s.server, n, s.issued[CallId(n, e.reply.xid)].h.xidRep);
    }
  }

  lemma NextDone(s: System, a: Action, s': System, n: nat)
    requires Inv(s) && Next(s, a, s') && ServerFrontsGrow(s.server, s'.server)
    requires AnswersTakenIn(s.server, s.issued, s.replies, n) && DoneTakenIn(s.server, s.clients, n)
    ensures DoneTakenIn(s'.server, s'.clients, n)
  {
    if a.SaveDup? {
      SaveDupTakenIn(s, n, a.n, a.x);
    } else {
      OtherXidRepDone(s, a);
      assert n in s'.clients && s'.clients[n].xidRepDone >= 0 ==> FrontReached(s.server, n, s.clients[n].xidRepDone);
    }
  }

  lemma NextHome(s: System, a: Action, s': System, n: nat)
    requires Inv(s) && Next(s, a, s') && FrontsGrow(s, s') && Extends(s, s') && s'.past == s.past && HomeInv(s, n)
    ensures HomeInv(s', n)
  {
    if a.Dispatch? {
      assert IsIssued(s.issued, a.r);
      assert HeaderOk(s.clients, Incarnations(s), IdOf(a.r), a.r.h);
    }
    NextAnswers(s, a, s', n);
    NextDone(s, a, s', n);
    if ByClient(a) {
      ClientStaysHome(s, a, n);
    } else {
      assert a.Restart? ==> s.server.nonce in s'.past;
      ServerStaysHome(s, a, n);
    }
  }

  lemma NextDoneBelowFront(s: System, a: Action, s': System)
    requires IssuedInv(s.clients, s.issued, Incarnations(s)) && Next(s, a, s') && ClientsLater(s.clients, s'.clients)
    requires DoneBelowFront(s.clients)
    ensures DoneBelowFront(s'.clients)
  {
    if a.SaveDup? {
      assert HeaderOk(s.clients, Incarnations(s), CallId(a.n, a.x), s.issued[CallId(a.n, a.x)].h);
    } else {
      OtherXidRepDone(s, a);
    }
  }

  lemma RunStepBelowFront(ss: seq<System>, acts: seq<Action>, i: nat)
    requires Run(ss, acts) && i < |acts| && DoneBelowFront(ss[i].clients)
    ensures DoneBelowFront(ss[i + 1].clients)
  {
    assert Next(ss[i], acts[i], ss[i + 1]);
    RunKeeps(ss, acts, i);
    RunStepFronts(ss, acts, i);
    NextDoneBelowFront(ss[i], acts[i], ss[i + 1]);
  }

  lemma {:induction false} RunBelowFront(ss: seq<System>, acts: seq<Action>, i: nat)
    requires Run(ss, acts) && i < |ss|
    ensures DoneBelowFront(ss[i].clients)
  {
    if i > 0 {
      RunBelowFront(ss, acts, i - 1);
      RunStepBelowFront(ss, acts, i - 1);
    }
  }

  lemma RunStepHome(ss: seq<System>, acts: seq<Action>, i: nat, n: nat)
    requires Run(ss, acts) && i < |acts| && ss[i + 1].past == ss[i].past && HomeInv(ss[i], n)
    ensures HomeInv(ss[i + 1], n)
  {
    assert Next(ss[i], acts[i], ss[i + 1]);
    RunKeeps(ss, acts, i);
    RunStepFronts(ss, acts, i);
    RunStepExtends(ss, acts, i);
    NextHome(ss[i], acts[i], ss[i + 1], n);
  }

  lemma {:induction false} RunHome(ss: seq<System>, acts: seq<Action>, b: nat, i: nat, n: nat)
    requires Run(ss, acts) && b <= i < |ss| && ss[i].past == ss[b].past
    requires n in ss[b].clients && ss[b].clients[n] == InitClient(n)
    ensures HomeInv(ss[i], n)
    decreases i
  {
    if i == b {
      RunKeeps(ss, acts, b);
      FreshClientHome(ss[b], n);
    } else {
      PastBetween(ss, acts, b, i - 1, i);
      RunHome(ss, acts, b, i - 1, n);
      RunStepHome(ss, acts, i - 1, n);
    }
  }

  lemma PastBetween(ss: seq<System>, acts: seq<Action>, b: nat, i: nat, k: nat)
    requires Run(ss, acts) && b <= i <= k < |ss| && ss[k].past == ss[b].past
    ensures ss[i].past == ss[b].past
  {
    RunExtends(ss, acts, b, i);
    RunExtends(ss, acts, i, k);
  }

  /** For a client whose whole life lies in the incarnation that state k runs, the duplicate
      is answered FORGOTTEN from the moment it may be sent.  In a run without restarts that is
      every client. */
  lemma LossyDuplicateIsForgotten(ss: seq<System>, acts: seq<Action>, b: nat, i: nat, k: nat, n: nat)
    requires Run(ss, acts) && b <= i <= k < |ss| && ss[k].past == ss[b].past
    requires n in ss[b].clients && ss[b].clients[n] == InitClient(n) && CanTransmitDuplicate(ss[i], n)
    ensures
      var h := ss[i].clients[n].dupReq.value.h;
      !WrongIncarnation(ss[k].server, h) && StatusOf(ss[k].server, h).Forgotten?
  {
    var c := ss[i].clients[n];
    var h := c.dupReq.value.h;
    PastBetween(ss, acts, b, i, k);
    RunFronts(ss, acts, i, k);
    RunHome(ss, acts, b, i, n);
    RunHome(ss, acts, b, k, n);
    RunExtends(ss, acts, i, k);
    DuplicateHeader(ss, acts, i, n);
    assert FrontReached(ss[i].server, n, c.xidRepDone);
    assert FrontReached(ss[k].server, n, WindowOf(ss[i].server, n)[0].xid);
    RunSorted(ss, acts, k, n);
    RW.ClassifyMeaning(WindowOf(ss[k].server, n), h.xid);
  }

  lemma DuplicateHeader(ss: seq<System>, acts: seq<Action>, i: nat, n: nat)
    requires Run(ss, acts) && i < |ss| && CanTransmitDuplicate(ss[i], n)
    ensures
      var r := ss[i].clients[n].dupReq.value;
      r.h.cltNonce == n && IdOf(r) in ss[i].returned && IsIssued(ss[i].issued, r)
  {
    var r := ss[i].clients[n].dupReq.value;
    RunKeeps(ss, acts, i);
    assert IsIssued(ss[i].issued, r);
    assert HeaderOk(ss[i].clients, Incarnations(ss[i]), IdOf(r), r.h);
  }

  /** A reply to that duplicate changes no caller and no acknowledgement window, in any
      later state of any run. */
  lemma DuplicateReplyChangesNothing(ss: seq<System>, acts: seq<Action>, i: nat, k: nat, n: nat, m: Reply)
    requires Run(ss, acts) && i <= k < |ss| && CanTransmitDuplicate(ss[i], n)
    requires m.xid == ss[i].clients[n].dupReq.value.h.xid
    ensures n in ss[k].clients && |ss[k].clients[n].window| > 0
    ensures GotPdu(ss[k].clients[n], m) == ss[k].clients[n]
  {
    RunFronts(ss, acts, i, k);
    RunBelowFront(ss, acts, i);
    DuplicateHeader(ss, acts, i, n);
    RunExtends(ss, acts, i, k);
    ReturnedIsGone(ss, acts, k, CallId(n, m.xid));
  }
}
