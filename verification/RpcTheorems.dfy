/** What the protocol guarantees over every run. */
module RpcTheorems {
  import opened Basics
  import opened RpcTypes
  import opened RpcProtocol
  import opened RpcInvariant
  import opened RpcClientSteps
  import opened RpcServerSteps
  import RW = ReplyWindow

  // ---- one step, and whole runs ----

  predicate ByClient(a: Action) {
    a.Call? || a.Transmit? || a.TransmitDuplicate? || a.Deliver? || a.Return? || a.SaveDup? || a.BindDone?
  }

  lemma SendingKeeps(s: System, a: Action)
    requires Inv(s) && Enabled(s, a) && (a.Call? || a.Transmit? || a.TransmitDuplicate?)
    ensures Inv(Apply(s, a))
  {
    match a {
      case Call(n, proc, args) => CallClientSide(s, n, proc, args); CallServerSide(s, n, proc, args);
      case Transmit(n, x) => TransmitKeeps(s, n, x);
      case TransmitDuplicate(n) => TransmitDuplicateKeeps(s, n);
    }
  }

  lemma FinishingKeeps(s: System, a: Action)
    requires Inv(s) && Enabled(s, a) && (a.Deliver? || a.Return? || a.SaveDup? || a.BindDone?)
    ensures Inv(Apply(s, a))
  {
    match a {
      case Deliver(n, m) => DeliverKeeps(s, n, m);
      case Return(n, x) => ReturnKeeps(s, n, x);
      case SaveDup(n, x) => SaveDupKeeps(s, n, x);
      case BindDone(n, x) => BindDoneKeeps(s, n, x);
    }
  }

  lemma ClientActionKeeps(s: System, a: Action)
    requires Inv(s) && Enabled(s, a) && ByClient(a)
    ensures Inv(Apply(s, a))
  {
    if a.Call? || a.Transmit? || a.TransmitDuplicate? {
      SendingKeeps(s, a);
    } else {
      FinishingKeeps(s, a);
    }
  }

  lemma ServerActionKeeps(s: System, a: Action)
    requires Inv(s) && Enabled(s, a) && !ByClient(a)
    ensures Inv(Apply(s, a))
  {
    match a {
      case Dispatch(r) => DispatchKeeps(s, r);
      case Execute(j, ret, body) => ExecuteKeeps(s, j, ret, body);
      case Record(j) => RecordKeeps(s, j);
      case Send(j) => SendKeeps(s, j);
      case Restart(nonce) => RestartKeeps(s, nonce);
    }
  }

  lemma NextKeeps(s: System, a: Action, s': System)
    requires Inv(s) && Next(s, a, s')
    ensures Inv(s')
  {
    if ByClient(a) {
      ClientActionKeeps(s, a);
    } else {
      ServerActionKeeps(s, a);
    }
  }

  lemma {:induction false} RunKeeps(ss: seq<System>, acts: seq<Action>, i: nat)
    requires Run(ss, acts) && i < |ss|
    ensures Inv(ss[i])
  {
    if i == 0 {
      InitInv(ss[0]);
    } else {
      RunKeeps(ss, acts, i - 1);
      NextKeeps(ss[i - 1], acts[i - 1], ss[i]);
    }
  }

  /** One more action makes a longer run. */
  lemma RunSnoc(ss: seq<System>, acts: seq<Action>, a: Action) returns (ss': seq<System>, acts': seq<Action>)
    requires Run(ss, acts) && Enabled(ss[|acts|], a)
    ensures Run(ss', acts') && acts' == acts + [a] && ss <= ss' && ss'[|acts'|] == Apply(ss[|acts|], a)
  {
    ss', acts' := ss + [Apply(ss[|acts|], a)], acts + [a];
    forall i | 0 <= i < |acts'| ensures Next(ss'[i], acts'[i], ss'[i + 1]) {
      if i < |acts| {
        assert Next(ss[i], acts[i], ss[i + 1]);
      }
    }
  }

  /** Nothing that was issued, admitted, executed or returned is ever rewritten. */
  ghost predicate Extends(s: System, s': System) {
    && s.log <= s'.log
    && (forall j :: j in s.execs ==> j in s'.execs && s'.execs[j] == s.execs[j])
    && (forall id :: id in s.issued ==> id in s'.issued && s'.issued[id] == s.issued[id])
    && (forall id :: id in s.returned ==> id in s'.returned && s'.returned[id] == s.returned[id])
    && (s'.server.nonce == s.server.nonce || s.server.nonce in s'.past) && s.past <= s'.past
  }

  /** History is only ever written at fresh keys. */
  ghost predicate WritesFresh(s: System, a: Action) {
    match a
    case Call(n, proc, args) => n in s.clients ==> CallId(n, s.clients[n].xid) !in s.issued
    case Return(n, x) => CallId(n, x) !in s.returned
    case Execute(j, ret, body) => j !in s.execs
    case _ => true
  }

  lemma ActionsWriteFresh(s: System, a: Action)
    requires Inv(s) && Enabled(s, a)
    ensures WritesFresh(s, a)
  {
    match a {
      case Call(n, proc, args) => CallIssued(s, n, proc, args);
      case Execute(j, ret, body) => assert JobOk(s.server, s.log, s.execs, j);
      case _ =>
    }
  }

  lemma ClientActionExtends(s: System, a: Action)
    requires WritesFresh(s, a) && Enabled(s, a) && ByClient(a)
    ensures Extends(s, Apply(s, a))
  {
  }

  lemma DispatchFrame(s: System, r: Request)
    ensures
      var s' := DispatchStep(s, r);
      && s'.execs == s.execs && s'.issued == s.issued && s'.returned == s.returned && s'.past == s.past
      && s'.server.nonce == s.server.nonce && s.log <= s'.log
  {
    if ToldNew(s, r) {
      AdmitFrame(s, r);
    } else {
      RepeatFrame(s, r);
    }
  }

  lemma AdmitFrame(s: System, r: Request)
    ensures
      var s' := AdmitStep(s, r);
      s' == s.(server := s'.server, log := s'.log) && s'.server.nonce == s.server.nonce && s.log <= s'.log
  {
  }

  /** A request that is not admitted changes windows and replies only. */
  lemma RepeatFrame(s: System, r: Request)
    requires !ToldNew(s, r)
    ensures
      var s' := DispatchStep(s, r);
      s' == s.(server := s'.server, replies := s'.replies) && s'.server.nonce == s.server.nonce
  {
  }

  lemma ServerActionExtends(s: System, a: Action)
    requires WritesFresh(s, a) && Enabled(s, a) && !ByClient(a)
    ensures Extends(s, Apply(s, a))
  {
    if a.Dispatch? {
      DispatchFrame(s, a.r);
    }
  }

  lemma NextExtends(s: System, a: Action, s': System)
    requires Inv(s) && Next(s, a, s')
    ensures Extends(s, s')
  {
    ActionsWriteFresh(s, a);
    if ByClient(a) {
      ClientActionExtends(s, a);
    } else {
      ServerActionExtends(s, a);
    }
  }

  lemma ExtendsTransitive(s0: System, s1: System, s2: System)
    requires Extends(s0, s1) && Extends(s1, s2)
    ensures Extends(s0, s2)
  {
  }

  lemma RunStepExtends(ss: seq<System>, acts: seq<Action>, i: nat)
    requires Run(ss, acts) && i < |acts|
    ensures Extends(ss[i], ss[i + 1])
  {
    assert Next(ss[i], acts[i], ss[i + 1]);
    RunKeeps(ss, acts, i);
    NextExtends(ss[i], acts[i], ss[i + 1]);
  }

  lemma ExtendsItself(s: System)
    ensures Extends(s, s)
  {
  }

  lemma {:induction false} ChainExtends(ss: seq<System>, i: nat, j: nat)
    requires i <= j < |ss|
    requires forall k {:trigger Extends(ss[k], ss[k + 1])} :: 0 <= k < |ss| - 1 ==> Extends(ss[k], ss[k + 1])
    ensures Extends(ss[i], ss[j])
    decreases j
  {
    if i < j {
      var k := j - 1;
      ChainExtends(ss, i, k);
      assert Extends(ss[k], ss[k + 1]);
      ExtendsTransitive(ss[i], ss[k], ss[j]);
    } else {
      ExtendsItself(ss[i]);
    }
  }

  lemma RunExtends(ss: seq<System>, acts: seq<Action>, i: nat, j: nat)
    requires Run(ss, acts) && i <= j < |ss|
    ensures Extends(ss[i], ss[j])
  {
    forall k | 0 <= k < |acts| ensures Extends(ss[k], ss[k + 1]) {
      RunStepExtends(ss, acts, k);
    }
    ChainExtends(ss, i, j);
  }

  // ---- at most once ----

  /** Dispatching r in state s makes the server run its handler. */
  ghost predicate ToldNew(s: System, r: Request) {
    !WrongIncarnation(s.server, r.h) && StatusOf(s.server, r.h).New?
  }

  lemma AdmittedForever(ss: seq<System>, acts: seq<Action>, i: nat, j: nat)
    requires Run(ss, acts) && i < j < |ss|
    requires acts[i].Dispatch? && ToldNew(ss[i], acts[i].r)
    ensures |ss[i].log| < |ss[j].log| && ss[j].log[|ss[i].log|] == Admission(ss[i].server.nonce, acts[i].r)
  {
    RunExtends(ss, acts, i + 1, j);
  }

  /** Over every interleaving, retransmission, loss, duplication and reordering, an
      incarnation runs the handler for a given (client, xid) at most once. */
  lemma AtMostOncePerIncarnation(ss: seq<System>, acts: seq<Action>, i: nat, j: nat)
    requires Run(ss, acts) && i < j < |acts|
    requires acts[i].Dispatch? && ToldNew(ss[i], acts[i].r)
    requires acts[j].Dispatch? && IdOf(acts[j].r) == IdOf(acts[i].r)
    requires ss[j].server.nonce == ss[i].server.nonce
    ensures !ToldNew(ss[j], acts[j].r)
  {
    AdmittedForever(ss, acts, i, j);
    RunKeeps(ss, acts, j);
    if ToldNew(ss[j], acts[j].r) {
      NewIsNew(ss[j].server, ss[j].log, acts[j].r.h, |ss[i].log|);
    }
  }

  /** Only the incarnation a client bound to ever runs one of its non-bind requests, so
      restarts do not break at-most-once. */
  lemma AtMostOnceAcrossRestarts(ss: seq<System>, acts: seq<Action>, i: nat, j: nat)
    requires Run(ss, acts) && i < j < |acts|
    requires acts[i].Dispatch? && ToldNew(ss[i], acts[i].r) && acts[i].r.h.proc != BIND
    requires acts[j].Dispatch? && IdOf(acts[j].r) == IdOf(acts[i].r)
    ensures !ToldNew(ss[j], acts[j].r)
  {
    if ToldNew(ss[j], acts[j].r) {
      AdmittedForever(ss, acts, i, j);
      SameRequest(ss, acts, i, j);
      RunKeeps(ss, acts, i);
      RunKeeps(ss, acts, j);
      assert HeaderOk(ss[i].clients, Incarnations(ss[i]), IdOf(acts[i].r), acts[i].r.h);
      AtMostOncePerIncarnation(ss, acts, i, j);
    }
  }

  /** Every copy of a request in the network carries the same bytes. */
  lemma SameRequest(ss: seq<System>, acts: seq<Action>, i: nat, j: nat)
    requires Run(ss, acts) && i <= j < |acts|
    requires acts[i].Dispatch? && acts[j].Dispatch? && IdOf(acts[j].r) == IdOf(acts[i].r)
    ensures acts[i].r == acts[j].r
    ensures IsIssued(ss[i].issued, acts[i].r)
  {
    RunKeeps(ss, acts, i);
    RunKeeps(ss, acts, j);
    RunExtends(ss, acts, i, j);
    assert Next(ss[i], acts[i], ss[i + 1]) && Next(ss[j], acts[j], ss[j + 1]);
    assert acts[i].r in ss[i].requests && acts[j].r in ss[j].requests;
  }

  // ---- end to end ----

  /** Job j ran the handler for this call, on exactly the request the client issued. */
  ghost predicate RanFor(s: System, id: CallId, j: nat) {
    j < |s.log| && j in s.execs && id in s.issued && s.log[j].req == s.issued[id] && IdOf(s.log[j].req) == id
  }

  /** Request r says what the caller in state s asked for: procedure and arguments are the
      caller's, the rest is the client's own state at that moment. */
  ghost predicate Carries(s: System, n: nat, proc: nat, args: Bytes, r: Request) {
    && n in s.clients && |s.clients[n].window| > 0
    && r.args == args && r.h.proc == proc && r.h.cltNonce == n
    && r.h.xid == s.clients[n].xid && r.h.srvNonce == s.clients[n].srvNonce && r.h.xidRep == s.clients[n].window[0]
  }

  /** The id the next call of client n gets. */
  ghost function NextId(s: System, n: nat): CallId
    requires n in s.clients
  {
    CallId(n, s.clients[n].xid)
  }

  lemma CallIsIssued(s: System, n: nat, proc: nat, args: Bytes)
    requires ClientsInv(s.clients) && CanCall(s, n, proc)
    ensures NextId(s, n) in CallStep(s, n, proc, args).issued
    ensures Carries(s, n, proc, args, CallStep(s, n, proc, args).issued[NextId(s, n)])
  {
  }

  /** What was asked for is what is issued, in every later state. */
  lemma RequestCarriesCall(ss: seq<System>, acts: seq<Action>, i: nat, k: nat)
    requires Run(ss, acts) && i < |acts| && i < k < |ss| && acts[i].Call?
    ensures acts[i].n in ss[i].clients && NextId(ss[i], acts[i].n) in ss[k].issued
    ensures Carries(ss[i], acts[i].n, acts[i].proc, acts[i].args, ss[k].issued[NextId(ss[i], acts[i].n)])
  {
    assert Next(ss[i], acts[i], ss[i + 1]);
    RunKeeps(ss, acts, i);
    CallIsIssued(ss[i], acts[i].n, acts[i].proc, acts[i].args);
    RunExtends(ss, acts, i + 1, k);
  }

  lemma OnlyCallsIssue(s: System, a: Action, id: CallId)
    requires Enabled(s, a) && id in Apply(s, a).issued
    ensures id in s.issued || (a.Call? && a.n in s.clients && id == NextId(s, a.n))
  {
    if a.Dispatch? {
      DispatchFrame(s, a.r);
    }
  }

  /** Every issued request goes back to a call of that client. */
  lemma {:induction false} IssuedByCall(ss: seq<System>, acts: seq<Action>, k: nat, id: CallId) returns (c: nat)
    requires Run(ss, acts) && k < |ss| && id in ss[k].issued
    ensures c < k && acts[c].Call? && acts[c].n in ss[c].clients && id == NextId(ss[c], acts[c].n)
  {
    var j := k - 1;
    assert Next(ss[j], acts[j], ss[k]);
    OnlyCallsIssue(ss[j], acts[j], id);
    if id in ss[j].issued {
      c := IssuedByCall(ss, acts, j, id);
    } else {
      c := j;
    }
  }

  lemma OnlyExecutionsProduce(s: System, a: Action, j: nat)
    requires Enabled(s, a) && j in Apply(s, a).execs
    ensures (a.Execute? && a.j == j) || (j in s.execs && Apply(s, a).execs[j] == s.execs[j])
    ensures a.Execute? && a.j == j ==> Apply(s, a).execs[j].ret == a.ret && Apply(s, a).execs[j].body == a.body
  {
    if a.Dispatch? {
      DispatchFrame(s, a.r);
    }
  }

  /** Every recorded reply holds what a handler returned. */
  lemma {:induction false} ProducedByHandler(ss: seq<System>, acts: seq<Action>, k: nat, j: nat) returns (e: nat)
    requires Run(ss, acts) && k < |ss| && j in ss[k].execs
    ensures e < k && acts[e].Execute? && acts[e].j == j
    ensures ss[k].execs[j].ret == acts[e].ret && ss[k].execs[j].body == acts[e].body
  {
    var i := k - 1;
    assert Next(ss[i], acts[i], ss[k]);
    OnlyExecutionsProduce(ss[i], acts[i], j);
    if acts[i].Execute? && acts[i].j == j {
      e := i;
    } else {
      e := ProducedByHandler(ss, acts, i, j);
    }
  }

  /** A call that returned a value >= 0 holds what the handler returned in step e, in job j,
      which ran with the procedure and the arguments that the caller gave in step c; unless it
      was a bind, that was its only execution by any incarnation. */
  lemma EndToEnd(ss: seq<System>, acts: seq<Action>, i: nat, id: CallId) returns (c: nat, j: nat, e: nat)
    requires Run(ss, acts) && i < |ss|
    requires id in ss[i].returned && Result(ss[i].returned[id]) >= 0
    ensures c < i && acts[c].Call? && acts[c].n in ss[c].clients && id == NextId(ss[c], acts[c].n)
    ensures
      var s := ss[i];
      && RanFor(s, id, j)
      && s.log[j].req.args == acts[c].args && s.log[j].req.h.proc == acts[c].proc
      && (acts[c].proc != BIND ==> forall k: nat :: RanFor(s, id, k) ==> k == j)
    ensures e < i && acts[e].Execute? && acts[e].j == j
    ensures ss[i].returned[id].intret == acts[e].ret && ss[i].returned[id].un == acts[e].body
  {
    j := ResultWasExecuted(ss, acts, i, id);
    e := ProducedByHandler(ss, acts, i, j);
    c := IssuedByCall(ss, acts, i, id);
    RequestCarriesCall(ss, acts, c, i);
  }

  lemma ResultWasExecuted(ss: seq<System>, acts: seq<Action>, i: nat, id: CallId) returns (j: nat)
    requires Run(ss, acts) && i < |ss|
    requires id in ss[i].returned && Result(ss[i].returned[id]) >= 0
    ensures
      var s := ss[i];
      && RanFor(s, id, j)
      && s.execs[j] == Reply(id.xid, s.returned[id].intret, s.returned[id].un)
      && (s.issued[id].h.proc != BIND ==> forall k: nat :: RanFor(s, id, k) ==> k == j)
  {
    var s := ss[i];
    RunKeeps(ss, acts, i);
    var e := Envelope(id.clt, Reply(id.xid, s.returned[id].intret, s.returned[id].un));
    assert CallerOk(s.replies, id, s.returned[id]);
    assert ReplyOk(s.issued, s.log, s.execs, e);
    j :| ProducedBy(s.log, s.execs, e, j);
    assert IsIssued(s.issued, s.log[j].req);
    if s.issued[id].h.proc != BIND {
      forall k: nat | RanFor(s, id, k) ensures k == j {
        OneExecution(s, id, j, k);
      }
    }
  }

  lemma OneExecution(s: System, id: CallId, j: nat, k: nat)
    requires LogInv(s.issued, Incarnations(s), s.log)
    requires RanFor(s, id, j) && RanFor(s, id, k) && s.issued[id].h.proc != BIND
    ensures j == k
  {
    assert s.log[j].inc == s.log[k].inc;
  }

  /** The caller of this call has its answer, inside `call1` or after it. */
  ghost predicate Settled(s: System, id: CallId, ca: Caller) {
    || (id.clt in s.clients && id.xid in s.clients[id.clt].calls && s.clients[id.clt].calls[id.xid] == ca)
    || (id in s.returned && s.returned[id] == ca)
  }

  lemma ClientActionSettled(s: System, a: Action, id: CallId, ca: Caller)
    requires WritesFresh(s, a) && Enabled(s, a) && ByClient(a) && Settled(s, id, ca) && ca.done
    requires id in s.issued
    ensures Settled(Apply(s, a), id, ca)
  {
  }

  lemma ServerActionSettled(s: System, a: Action, id: CallId, ca: Caller)
    requires Enabled(s, a) && !ByClient(a) && Settled(s, id, ca)
    ensures Settled(Apply(s, a), id, ca)
  {
  }

  lemma NextSettled(s: System, a: Action, s': System, id: CallId, ca: Caller)
    requires Inv(s) && Next(s, a, s') && Settled(s, id, ca) && ca.done
    ensures Settled(s', id, ca)
  {
    ActionsWriteFresh(s, a);
    if ByClient(a) {
      SettledIsIssued(s, id, ca);
      ClientActionSettled(s, a, id, ca);
    } else {
      ServerActionSettled(s, a, id, ca);
    }
  }

  lemma RunStepSettled(ss: seq<System>, acts: seq<Action>, i: nat, id: CallId, ca: Caller)
    requires Run(ss, acts) && i < |acts| && Settled(ss[i], id, ca) && ca.done
    ensures Settled(ss[i + 1], id, ca)
  {
    assert Next(ss[i], acts[i], ss[i + 1]);
    RunKeeps(ss, acts, i);
    NextSettled(ss[i], acts[i], ss[i + 1], id, ca);
  }

  /** Once a caller has its answer, no later reply, timeout or retransmission changes it. */
  lemma {:induction false} AnswerIsFinal(ss: seq<System>, acts: seq<Action>, i: nat, j: nat, id: CallId, ca: Caller)
    requires Run(ss, acts) && i <= j < |ss| && Settled(ss[i], id, ca) && ca.done
    ensures Settled(ss[j], id, ca)
    decreases j
  {
    if i < j {
      AnswerIsFinal(ss, acts, i, j - 1, id, ca);
      RunStepSettled(ss, acts, j - 1, id, ca);
    }
  }

  lemma SettledIsIssued(s: System, id: CallId, ca: Caller)
    requires Inv(s) && Settled(s, id, ca)
    ensures id in s.issued
  {
    if id !in s.returned {
      assert ClientOk(s.clients[id.clt]);
      assert CallId(id.clt, id.xid) == id;
    }
  }

  // ---- replies that are still wanted ----

  ghost predicate Waiting(s: System, id: CallId) {
    id.clt in s.clients && id.xid in s.clients[id.clt].calls && !s.clients[id.clt].calls[id.xid].done
  }

  /** While a caller waits, the running server still remembers its admitted request,
      even if other calls of the same client timed out. */
  lemma WaitingCallIsRemembered(ss: seq<System>, acts: seq<Action>, i: nat, id: CallId)
    requires Run(ss, acts) && i < |ss| && Waiting(ss[i], id)
    requires WasAdmitted(ss[i].log, ss[i].server.nonce, id.clt, id.xid)
    ensures id.xid in RW.Entries(WindowOf(ss[i].server, id.clt))
  {
    var s := ss[i];
    RunKeeps(ss, acts, i);
    WaitingStaysInWindow(s, id);
  }

  lemma WaitingStaysInWindow(s: System, id: CallId)
    requires Inv(s) && Waiting(s, id) && WasAdmitted(s.log, s.server.nonce, id.clt, id.xid)
    ensures id.xid in RW.Entries(WindowOf(s.server, id.clt))
  {
    var j :| 0 <= j < |s.log| && Admits(s.log[j], s.server.nonce, id.clt, id.xid);
    var c := s.clients[id.clt];
    assert ClientOk(c);
    assert id.xid !in Finished(c);
  }

  /** The dispatch thread of admission j has saved its reply in the running server. */
  ghost predicate Saved(s: System, j: nat) {
    && j < |s.log| && s.log[j].inc == s.server.nonce
    && (j !in s.server.jobs || s.server.jobs[j].phase.Stored?)
  }

  lemma ClientActionSaved(s: System, a: Action, j: nat)
    requires Enabled(s, a) && ByClient(a) && Saved(s, j)
    ensures Saved(Apply(s, a), j)
  {
  }

  lemma DispatchSaved(s: System, r: Request, j: nat)
    requires Saved(s, j)
    ensures Saved(DispatchStep(s, r), j)
  {
  }

  lemma ServerActionSaved(s: System, a: Action, j: nat)
    requires Enabled(s, a) && !ByClient(a) && !a.Restart? && Saved(s, j)
    ensures Saved(Apply(s, a), j)
  {
    if a.Dispatch? {
      DispatchSaved(s, a.r, j);
    }
  }

  lemma {:induction false} SavedForever(ss: seq<System>, acts: seq<Action>, i: nat, k: nat, j: nat)
    requires Run(ss, acts) && i <= k < |ss| && Saved(ss[i], j) && ss[k].server.nonce == ss[i].server.nonce
    ensures Saved(ss[k], j)
    decreases k
  {
    if i < k {
      var s, a := ss[k - 1], acts[k - 1];
      assert Next(s, a, ss[k]);
      SameIncarnationBetween(ss, acts, i, k - 1, k);
      SavedForever(ss, acts, i, k - 1, j);
      if ByClient(a) {
        ClientActionSaved(s, a, j);
      } else {
        ServerActionSaved(s, a, j);
      }
    }
  }

  lemma SameIncarnationBetween(ss: seq<System>, acts: seq<Action>, i: nat, j: nat, k: nat)
    requires Run(ss, acts) && i <= j <= k < |ss| && ss[k].server.nonce == ss[i].server.nonce
    ensures ss[j].server.nonce == ss[i].server.nonce
  {
    RunExtends(ss, acts, i, j);
    RunExtends(ss, acts, j, k);
    RunKeeps(ss, acts, k);
  }

  lemma SavedReplyIsReplayed(s: System, j: nat, h: Header)
    requires Inv(s) && Saved(s, j) && Waiting(s, CallId(h.cltNonce, h.xid))
    requires Admits(s.log[j], s.server.nonce, h.cltNonce, h.xid)
    ensures j in s.execs && StatusOf(s.server, h) == RW.Done(s.execs[j])
  {
    WaitingStaysInWindow(s, CallId(h.cltNonce, h.xid));
    assert EntryOk(s.server, s.log, s.execs, j);
    RW.EntriesKeys(WindowOf(s.server, h.cltNonce), h.xid);
  }

  lemma StoredEntryIsSaved(s: System, h: Header, m: Reply) returns (j: nat)
    requires ServerSide(s)
    requires
      var es := RW.Entries(WindowOf(s.server, h.cltNonce));
      h.xid in es && es[h.xid] == Some(m)
    ensures Saved(s, j) && Admits(s.log[j], s.server.nonce, h.cltNonce, h.xid)
    ensures j in s.execs && s.execs[j] == m
  {
    assert WasAdmitted(s.log, s.server.nonce, h.cltNonce, h.xid);
    j :| 0 <= j < |s.log| && Admits(s.log[j], s.server.nonce, h.cltNonce, h.xid);
    assert EntryOk(s.server, s.log, s.execs, j);
  }

  /** Once a reply is stored, as long as its caller waits every retransmission is
      answered DONE with those same bytes. */
  lemma StoredReplyIsReplayed(ss: seq<System>, acts: seq<Action>, i: nat, k: nat, h: Header, m: Reply)
    requires Run(ss, acts) && i <= k < |ss| && ss[k].server.nonce == ss[i].server.nonce
    requires
      var es := RW.Entries(WindowOf(ss[i].server, h.cltNonce));
      h.xid in es && es[h.xid] == Some(m)
    requires Waiting(ss[k], CallId(h.cltNonce, h.xid))
    ensures StatusOf(ss[k].server, h) == RW.Done(m)
  {
    var j: nat;
    j := StoredEntryIsSaved(ss[i], h, m) by { RunKeeps(ss, acts, i); }
    SavedForever(ss, acts, i, k, j);
    RunExtends(ss, acts, i, k);
    SavedReplyIsReplayed(ss[k], j, h) by { RunKeeps(ss, acts, k); }
  }
}
