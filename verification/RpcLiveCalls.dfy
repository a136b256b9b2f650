/** When would a waiting call be answered FORGOTTEN?  Exactly when its header passes the test
    of the server's nonce and some earlier admission found nothing in the window that guards
    it: this holds with timeouts, restarts and any number of binds.  A sentinel for the
    acknowledged xid, which the server can see by itself, guards every waiting call. */
module RpcLiveCalls {
  import opened RpcTypes
  import opened RpcProtocol
  import opened RpcInvariant
  import opened RpcServerSteps
  import opened RpcTheorems
  import RpcOneIncarnation
  import RW = ReplyWindow

  /** The call of this client and number is waiting, and dispatch would look it up in the
      window: its header passes the test of the server's nonce.  With `all`, calls that fail
      that test, and would be answered OLDSRV, count as well. */
  ghost predicate IsLive(s: System, n: nat, x: nat, all: bool) {
    var id := CallId(n, x);
    Waiting(s, id) && id in s.issued && (all || !WrongIncarnation(s.server, s.issued[id].h))
  }

  /** Admitting r now would leave every live call of its client guarded. */
  ghost predicate SparesLive(s: System, r: Request, all: bool) {
    ToldNew(s, r) ==> forall y :: IsLive(s, r.h.cltNonce, y, all) ==>
      RW.Guarded(WindowOf(s.server, r.h.cltNonce), r.h.xid, r.h.xidRep, y)
  }

  /** What the server alone can check: admitting r now would leave a sentinel. */
  ghost predicate LeavesSentinel(s: System, r: Request) {
    ToldNew(s, r) ==> RW.HasSentinel(WindowOf(s.server, r.h.cltNonce), r.h.xid, r.h.xidRep)
  }

  ghost predicate SentinelRun(ss: seq<System>, acts: seq<Action>) {
    Run(ss, acts) && forall i :: 0 <= i < |acts| && acts[i].Dispatch? ==> LeavesSentinel(ss[i], acts[i].r)
  }

  ghost predicate Admissible(sv: Server, n: nat, x: nat) {
    !RW.Classify(WindowOf(sv, n), x).Forgotten?
  }

  /** No live call's xid lies below its window's front. */
  ghost predicate LiveAdmissible(s: System, all: bool) {
    forall n, x :: IsLive(s, n, x, all) ==> Admissible(s.server, n, x)
  }

  // ---- which calls are live ----

  lemma ClientActionLives(s: System, a: Action, n: nat, x: nat, all: bool)
    requires Enabled(s, a) && ByClient(a) && IsLive(Apply(s, a), n, x, all)
    ensures IsLive(s, n, x, all) || (a.Call? && a.n == n && x == s.clients[n].xid)
  {
  }

  /** Short of a restart, only issuing a call makes it live. */
  lemma LiveBefore(s: System, a: Action, n: nat, x: nat, all: bool)
    requires Enabled(s, a) && !a.Restart? && IsLive(Apply(s, a), n, x, all)
    ensures IsLive(s, n, x, all) || (a.Call? && a.n == n && x == s.clients[n].xid)
  {
    if ByClient(a) {
      ClientActionLives(s, a, n, x, all);
    } else {
      ServerActionLives(s, a, n, x, all);
    }
  }

  lemma ServerActionLives(s: System, a: Action, n: nat, x: nat, all: bool)
    requires Enabled(s, a) && !ByClient(a) && !a.Restart?
    ensures IsLive(Apply(s, a), n, x, all) <==> IsLive(s, n, x, all)
  {
    RpcOneIncarnation.ServerActionClients(s, a);
    if a.Dispatch? {
      DispatchFrame(s, a.r);
    }
  }

  /** A fresh xid is above everything in the window. */
  lemma FreshIsAdmissible(s: System, n: nat)
    requires WindowsInv(s.server, s.log) && LogInv(s.issued, Incarnations(s), s.log)
    requires IssuedInv(s.clients, s.issued, Incarnations(s)) && n in s.clients
    ensures Admissible(s.server, n, s.clients[n].xid)
  {
    var w := WindowOf(s.server, n);
    if w != [] {
      RW.EntriesAt(w, 0);
      assert WasAdmitted(s.log, s.server.nonce, n, w[0].xid);
      var j :| 0 <= j < |s.log| && Admits(s.log[j], s.server.nonce, n, w[0].xid);
      var r := s.log[j].req;
      assert IsIssued(s.issued, r);
      assert HeaderOk(s.clients, Incarnations(s), IdOf(r), r.h);
    }
    RW.ClassifyMeaning(w, s.clients[n].xid);
  }

  /** A waiting call is above everything its client ever acknowledged. */
  lemma WaitingAboveFront(s: System, n: nat, x: nat)
    requires ClientsInv(s.clients) && Waiting(s, CallId(n, x))
    ensures |s.clients[n].window| > 0 && x > s.clients[n].window[0]
  {
    assert ClientOk(s.clients[n]);
    assert x !in Finished(s.clients[n]);
  }

  // ---- admissible stays admissible ----

  lemma CheckAdmissible(s: System, r: Request, n: nat, x: nat, all: bool)
    requires RW.Sorted(WindowOf(s.server, n)) && r.h.xidRep < r.h.xid && !WrongIncarnation(s.server, r.h)
    requires IsLive(s, n, x, all) && Admissible(s.server, n, x) && SparesLive(s, r, all)
    ensures Admissible(CheckRequest(s.server, r.h), n, x)
  {
    if n == r.h.cltNonce && StatusOf(s.server, r.h).New? {
      RW.AdmissibleAfterIffGuarded(WindowOf(s.server, n), r.h.xid, r.h.xidRep, x);
    } else {
      assert WindowOf(CheckRequest(s.server, r.h), n) == WindowOf(s.server, n);
    }
  }

  lemma DispatchAdmissible(s: System, r: Request, n: nat, x: nat, all: bool)
    requires RW.Sorted(WindowOf(s.server, n)) && r.h.xidRep < r.h.xid
    requires IsLive(s, n, x, all) && Admissible(s.server, n, x) && SparesLive(s, r, all)
    ensures Admissible(DispatchStep(s, r).server, n, x)
  {
    RpcOneIncarnation.DispatchServer(s, r);
    if !WrongIncarnation(s.server, r.h) {
      CheckAdmissible(s, r, n, x, all);
    }
  }

  lemma RecordAdmissible(s: System, j: nat, n: nat, x: nat)
    requires WindowsInv(s.server, s.log) && CanRecord(s, j) && Admissible(s.server, n, x)
    ensures Admissible(RecordStep(s, j).server, n, x)
  {
    var job := s.server.jobs[j];
    var sv' := AddReply(s.server, job.req.h, job.phase.reply);
    RecordWindows(s.server, job.req.h, job.phase.reply);
    RW.ClassifyMeaning(WindowOf(sv', n), x);
    RW.ClassifyMeaning(WindowOf(s.server, n), x);
    assert RecordStep(s, j).server.windows == sv'.windows;
  }

  lemma HeaderOfSent(s: System, r: Request)
    requires ClientSide(s) && r in s.requests
    ensures r.h.xidRep < r.h.xid
  {
    assert IsIssued(s.issued, r) && HeaderOk(s.clients, Incarnations(s), IdOf(r), r.h);
  }

  lemma QuietServerAction(s: System, a: Action, n: nat)
    requires Enabled(s, a) && (a.Execute? || a.Send? || a.Restart?)
    ensures WindowOf(Apply(s, a).server, n) == (if a.Restart? then [] else WindowOf(s.server, n))
  {
  }

  lemma ServerActionAdmissible(s: System, a: Action, n: nat, x: nat, all: bool)
    requires Inv(s) && Enabled(s, a) && !ByClient(a) && IsLive(s, n, x, all) && Admissible(s.server, n, x)
    requires a.Dispatch? ==> SparesLive(s, a.r, all)
    ensures Admissible(Apply(s, a).server, n, x)
  {
    match a {
      case Dispatch(r) => HeaderOfSent(s, r); DispatchAdmissible(s, r, n, x, all);
      case Record(j) => RecordAdmissible(s, j, n, x);
      case _ => QuietServerAction(s, a, n);
    }
  }

  lemma NextLive(s: System, a: Action, s': System, all: bool)
    requires Inv(s) && Next(s, a, s') && LiveAdmissible(s, all)
    requires a.Dispatch? ==> SparesLive(s, a.r, all)
    ensures LiveAdmissible(s', all)
  {
    forall n, x | IsLive(s', n, x, all) ensures Admissible(s'.server, n, x) {
      if !a.Restart? {
        LiveBefore(s, a, n, x, all);
        if ByClient(a) {
          RpcOneIncarnation.ClientActionServer(s, a);
          if !IsLive(s, n, x, all) {
            FreshIsAdmissible(s, n);
          }
        } else {
          ServerActionAdmissible(s, a, n, x, all);
        }
      }
    }
  }

  lemma RunStepLive(ss: seq<System>, acts: seq<Action>, i: nat, all: bool)
    requires Run(ss, acts) && i < |acts| && LiveAdmissible(ss[i], all)
    requires acts[i].Dispatch? ==> SparesLive(ss[i], acts[i].r, all)
    ensures LiveAdmissible(ss[i + 1], all)
  {
    assert Next(ss[i], acts[i], ss[i + 1]);
    RunKeeps(ss, acts, i);
    NextLive(ss[i], acts[i], ss[i + 1], all);
  }

  /** Every admission up to state i spared the live calls. */
  ghost predicate SparesUpTo(ss: seq<System>, acts: seq<Action>, i: nat, all: bool) {
    |ss| == |acts| + 1
    && forall k :: 0 <= k < i && k < |acts| && acts[k].Dispatch? ==> SparesLive(ss[k], acts[k].r, all)
  }

  lemma {:induction false} RunLive(ss: seq<System>, acts: seq<Action>, i: nat, all: bool)
    requires Run(ss, acts) && i < |ss| && SparesUpTo(ss, acts, i, all)
    ensures LiveAdmissible(ss[i], all)
  {
    if i > 0 {
      RunLive(ss, acts, i - 1, all);
      RunStepLive(ss, acts, i - 1, all);
    }
  }

  // ---- the exact condition ----

  /** A request of waiting call y, whatever else it carries. */
  function HeaderOf(n: nat, y: nat): Header {
    Header(y, 0, n, 0, 0)
  }

  /** An admission that does not guard a waiting call makes it FORGOTTEN at once. */
  lemma CutOffNow(ss: seq<System>, acts: seq<Action>, i: nat, y: nat)
    requires Run(ss, acts) && i < |acts| && acts[i].Dispatch? && ToldNew(ss[i], acts[i].r)
    requires !RW.Guarded(WindowOf(ss[i].server, acts[i].r.h.cltNonce), acts[i].r.h.xid, acts[i].r.h.xidRep, y)
    ensures StatusOf(ss[i + 1].server, HeaderOf(acts[i].r.h.cltNonce, y)).Forgotten?
    ensures ss[i + 1].clients == ss[i].clients
  {
    var s, r := ss[i], acts[i].r;
    assert Next(s, acts[i], ss[i + 1]);
    HeaderAtDispatch(ss, acts, i);
    RpcOneIncarnation.RunSorted(ss, acts, i, r.h.cltNonce);
    RpcOneIncarnation.DispatchServer(s, r);
    RpcOneIncarnation.ServerActionClients(s, acts[i]);
    RW.AdmissibleAfterIffGuarded(WindowOf(s.server, r.h.cltNonce), r.h.xid, r.h.xidRep, y);
  }

  lemma HeaderAtDispatch(ss: seq<System>, acts: seq<Action>, i: nat)
    requires Run(ss, acts) && i < |acts| && acts[i].Dispatch?
    ensures acts[i].r.h.xidRep < acts[i].r.h.xid
  {
    assert Next(ss[i], acts[i], ss[i + 1]);
    RunKeeps(ss, acts, i);
    HeaderOfSent(ss[i], acts[i].r);
  }

  /** What is FORGOTTEN stays so for the rest of the incarnation. */
  lemma ForgottenForGood(ss: seq<System>, acts: seq<Action>, i: nat, k: nat, h: Header)
    requires Run(ss, acts) && i <= k < |ss| && ss[k].past == ss[i].past && StatusOf(ss[i].server, h).Forgotten?
    ensures StatusOf(ss[k].server, h).Forgotten?
  {
    var n := h.cltNonce;
    RpcOneIncarnation.RunFronts(ss, acts, i, k);
    RpcOneIncarnation.RunSorted(ss, acts, i, n);
    RpcOneIncarnation.RunSorted(ss, acts, k, n);
    RW.ClassifyMeaning(WindowOf(ss[i].server, n), h.xid);
    RW.ClassifyMeaning(WindowOf(ss[k].server, n), h.xid);
  }

  lemma DispatchKeepsLive(ss: seq<System>, acts: seq<Action>, i: nat, n: nat, x: nat, all: bool)
    requires Run(ss, acts) && i < |acts| && acts[i].Dispatch?
    ensures IsLive(ss[i + 1], n, x, all) <==> IsLive(ss[i], n, x, all)
  {
    assert Next(ss[i], acts[i], ss[i + 1]);
    ServerActionLives(ss[i], acts[i], n, x, all);
  }

  lemma GuardedBecauseLive(ss: seq<System>, acts: seq<Action>, i: nat, y: nat, all: bool)
    requires Run(ss, acts) && i < |acts| && acts[i].Dispatch? && ToldNew(ss[i], acts[i].r)
    requires IsLive(ss[i], acts[i].r.h.cltNonce, y, all) && LiveAdmissible(ss[i + 1], all)
    ensures RW.Guarded(WindowOf(ss[i].server, acts[i].r.h.cltNonce), acts[i].r.h.xid, acts[i].r.h.xidRep, y)
  {
    var n := acts[i].r.h.cltNonce;
    DispatchKeepsLive(ss, acts, i, n, y, all);
    if !RW.Guarded(WindowOf(ss[i].server, n), acts[i].r.h.xid, acts[i].r.h.xidRep, y) {
      CutOffNow(ss, acts, i, y);
    }
  }

  lemma LiveMeansSpared(ss: seq<System>, acts: seq<Action>, i: nat, all: bool)
    requires Run(ss, acts) && i < |acts| && acts[i].Dispatch? && LiveAdmissible(ss[i + 1], all)
    ensures SparesLive(ss[i], acts[i].r, all)
  {
    var s, r := ss[i], acts[i].r;
    if ToldNew(s, r) {
      forall y | IsLive(s, r.h.cltNonce, y, all)
        ensures RW.Guarded(WindowOf(s.server, r.h.cltNonce), r.h.xid, r.h.xidRep, y)
      {
        GuardedBecauseLive(ss, acts, i, y, all);
      }
    }
  }

  lemma LiveIffSpared(ss: seq<System>, acts: seq<Action>, all: bool)
    requires Run(ss, acts)
    ensures (forall i :: 0 <= i < |ss| ==> LiveAdmissible(ss[i], all)) <==> SparesUpTo(ss, acts, |acts|, all)
  {
    if SparesUpTo(ss, acts, |acts|, all) {
      forall i | 0 <= i < |ss| ensures LiveAdmissible(ss[i], all) {
        RunLive(ss, acts, i, all);
      }
    }
    if forall i :: 0 <= i < |ss| ==> LiveAdmissible(ss[i], all) {
      forall k | 0 <= k < |acts| && acts[k].Dispatch? ensures SparesLive(ss[k], acts[k].r, all) {
        assert LiveAdmissible(ss[k + 1], all);
        LiveMeansSpared(ss, acts, k, all);
      }
    }
  }

  /** Dispatching r now would answer it FORGOTTEN. */
  ghost predicate ToldForgotten(s: System, r: Request) {
    !WrongIncarnation(s.server, r.h) && StatusOf(s.server, r.h).Forgotten?
  }

  /** The request of some waiting call would be answered FORGOTTEN. */
  ghost predicate LosesCall(s: System, id: CallId) {
    Waiting(s, id) && id in s.issued && ToldForgotten(s, s.issued[id])
  }

  lemma LosesNoneIff(s: System)
    requires ClientSide(s)
    ensures LiveAdmissible(s, false) <==> forall id :: !LosesCall(s, id)
  {
    forall id: CallId | id in s.issued ensures s.issued[id].h.cltNonce == id.clt && s.issued[id].h.xid == id.xid {
      assert HeaderOk(s.clients, Incarnations(s), id, s.issued[id].h);
    }
    if LiveAdmissible(s, false) {
      forall id ensures !LosesCall(s, id) {
        assert IsLive(s, id.clt, id.xid, false) ==> Admissible(s.server, id.clt, id.xid);
      }
    }
    if forall id :: !LosesCall(s, id) {
      forall n, x | IsLive(s, n, x, false) ensures Admissible(s.server, n, x) {
        assert !LosesCall(s, CallId(n, x));
      }
    }
  }

  /** In every run, with any timeouts, restarts and binds: in no state the request of a waiting
      call would be answered FORGOTTEN if and only if every admission guards all waiting calls
      of its client that pass the nonce test. */
  lemma LiveCallsKeptIffSpared(ss: seq<System>, acts: seq<Action>)
    requires Run(ss, acts)
    ensures (forall i, id :: 0 <= i < |ss| ==> !LosesCall(ss[i], id)) <==> SparesUpTo(ss, acts, |acts|, false)
  {
    forall i | 0 <= i < |ss| ensures LiveAdmissible(ss[i], false) <==> forall id :: !LosesCall(ss[i], id) {
      RunKeeps(ss, acts, i);
      LosesNoneIff(ss[i]);
    }
    LiveIffSpared(ss, acts, false);
  }

  /** The answer is not hypothetical: two more steps, sending the request and dispatching it,
      put the reply FORGOTTEN to the waiting caller into the network. */
  lemma LostCallIsAnswered(s: System, id: CallId)
    requires ClientSide(s) && LosesCall(s, id)
    ensures
      var r := s.issued[id];
      && Enabled(s, Transmit(id.clt, id.xid))
      && var s1 := Apply(s, Transmit(id.clt, id.xid));
         && Enabled(s1, Dispatch(r))
         && Envelope(id.clt, Reply(id.xid, ATMOSTONCE_FAILURE, [])) in Apply(s1, Dispatch(r)).replies
         && Waiting(Apply(s1, Dispatch(r)), id)
  {
    assert HeaderOk(s.clients, Incarnations(s), id, s.issued[id].h);
    var s1 := Apply(s, Transmit(id.clt, id.xid));
    RpcOneIncarnation.DispatchReplies(s1, s.issued[id]);
    RpcOneIncarnation.ServerActionClients(s1, Dispatch(s.issued[id]));
  }

  /** A live call that an admission does not guard is still live after it, and as long as it
      waits and the incarnation lasts, its request would be answered FORGOTTEN. */
  lemma UnguardedCallIsLost(ss: seq<System>, acts: seq<Action>, i: nat, k: nat, y: nat)
    requires Run(ss, acts) && i < k < |ss| && acts[i].Dispatch? && ToldNew(ss[i], acts[i].r)
    requires IsLive(ss[i], acts[i].r.h.cltNonce, y, false) && ss[k].past == ss[i + 1].past
    requires !RW.Guarded(WindowOf(ss[i].server, acts[i].r.h.cltNonce), acts[i].r.h.xid, acts[i].r.h.xidRep, y)
    ensures
      var id := CallId(acts[i].r.h.cltNonce, y);
      LosesCall(ss[i + 1], id) && (Waiting(ss[k], id) ==> LosesCall(ss[k], id))
  {
    var id := CallId(acts[i].r.h.cltNonce, y);
    CutOffNow(ss, acts, i, y);
    DispatchKeepsLive(ss, acts, i, id.clt, y, false);
    LostWhileWaiting(ss, acts, i + 1, i + 1, id);
    LostWhileWaiting(ss, acts, i + 1, k, id);
  }

  lemma LostWhileWaiting(ss: seq<System>, acts: seq<Action>, i: nat, k: nat, id: CallId)
    requires Run(ss, acts) && i <= k < |ss| && ss[k].past == ss[i].past
    requires IsLive(ss[i], id.clt, id.xid, false) && StatusOf(ss[i].server, HeaderOf(id.clt, id.xid)).Forgotten?
    ensures Waiting(ss[k], id) ==> LosesCall(ss[k], id)
  {
    ForgottenForGood(ss, acts, i, k, HeaderOf(id.clt, id.xid));
    RunExtends(ss, acts, i, k);
    RunKeeps(ss, acts, i);
    RunKeeps(ss, acts, k);
    assert HeaderOk(ss[k].clients, Incarnations(ss[k]), id, ss[k].issued[id].h);
  }

  // ---- what the server can see ----

  /** A sentinel spares every waiting call, whatever its nonce. */
  lemma SentinelSpares(s: System, r: Request)
    requires ClientsInv(s.clients) && WindowsInv(s.server, s.log)
    requires HeaderOk(s.clients, Incarnations(s), IdOf(r), r.h)
    requires LiveAdmissible(s, true) && LeavesSentinel(s, r)
    ensures SparesLive(s, r, true)
  {
    if ToldNew(s, r) {
      forall y | IsLive(s, r.h.cltNonce, y, true)
        ensures RW.Guarded(WindowOf(s.server, r.h.cltNonce), r.h.xid, r.h.xidRep, y)
      {
        assert Admissible(s.server, r.h.cltNonce, y);
        WaitingAboveFront(s, r.h.cltNonce, y);
        RW.SentinelGuards(WindowOf(s.server, r.h.cltNonce), r.h.xid, r.h.xidRep, y);
      }
    }
  }

  lemma SentinelSparesAt(ss: seq<System>, acts: seq<Action>, i: nat)
    requires SentinelRun(ss, acts) && i < |acts| && acts[i].Dispatch? && LiveAdmissible(ss[i], true)
    ensures SparesLive(ss[i], acts[i].r, true)
  {
    assert Next(ss[i], acts[i], ss[i + 1]);
    RunKeeps(ss, acts, i);
    assert IsIssued(ss[i].issued, acts[i].r);
    SentinelSpares(ss[i], acts[i].r);
  }

  lemma SentinelStepLive(ss: seq<System>, acts: seq<Action>, i: nat)
    requires SentinelRun(ss, acts) && i < |acts| && LiveAdmissible(ss[i], true)
    ensures LiveAdmissible(ss[i + 1], true)
  {
    if acts[i].Dispatch? {
      SentinelSparesAt(ss, acts, i);
    }
    RunStepLive(ss, acts, i, true);
  }

  lemma {:induction false} SentinelRunLive(ss: seq<System>, acts: seq<Action>, i: nat)
    requires SentinelRun(ss, acts) && i < |ss|
    ensures LiveAdmissible(ss[i], true)
  {
    if i > 0 {
      SentinelRunLive(ss, acts, i - 1);
      SentinelStepLive(ss, acts, i - 1);
    }
  }

  /** If every admission leaves a sentinel, no waiting call is ever answered FORGOTTEN. */
  lemma SentinelsKeepLiveCalls(ss: seq<System>, acts: seq<Action>, i: nat, h: Header)
    requires SentinelRun(ss, acts) && i < |ss| && Waiting(ss[i], CallId(h.cltNonce, h.xid))
    ensures !StatusOf(ss[i].server, h).Forgotten?
  {
    SentinelRunLive(ss, acts, i);
    RunKeeps(ss, acts, i);
    assert ClientOk(ss[i].clients[h.cltNonce]);
    assert IsLive(ss[i], h.cltNonce, h.xid, true);
  }

  /** The first xid above what r acknowledges. */
  function NextUnacknowledged(r: Request): Header {
    Header(r.h.xidRep + 1, r.h.proc, r.h.cltNonce, r.h.srvNonce, 0)
  }

  /** An admission that leaves no sentinel cuts off the xid right above its own xid_rep,
      which was admissible until then, for the rest of the incarnation; whether or not a
      call of that number is waiting. */
  lemma MissingSentinelCutsOff(ss: seq<System>, acts: seq<Action>, i: nat, k: nat)
    requires Run(ss, acts) && i < k < |ss| && acts[i].Dispatch? && ss[k].past == ss[i].past
    requires !LeavesSentinel(ss[i], acts[i].r)
    ensures
      var h := NextUnacknowledged(acts[i].r);
      !StatusOf(ss[i].server, h).Forgotten? && StatusOf(ss[k].server, h).Forgotten?
  {
    var r := acts[i].r;
    var h := NextUnacknowledged(r);
    var w := WindowOf(ss[i].server, r.h.cltNonce);
    HeaderAtDispatch(ss, acts, i);
    RpcOneIncarnation.RunSorted(ss, acts, i, r.h.cltNonce);
    RW.AdmissionCutsOff(w, r.h.xid, r.h.xidRep);
    RW.AdmissibleAfterIffGuarded(w, r.h.xid, r.h.xidRep, h.xid);
    CutOffNow(ss, acts, i, h.xid);
    RpcOneIncarnation.RunFronts(ss, acts, i, i + 1);
    SamePast(ss, acts, i, k);
    ForgottenForGood(ss, acts, i + 1, k, HeaderOf(r.h.cltNonce, h.xid));
  }

  lemma SamePast(ss: seq<System>, acts: seq<Action>, i: nat, k: nat)
    requires Run(ss, acts) && i < k < |ss| && acts[i].Dispatch? && ss[k].past == ss[i].past
    ensures ss[i + 1].past == ss[i].past
  {
    assert Next(ss[i], acts[i], ss[i + 1]);
    DispatchFrame(ss[i], acts[i].r);
  }
}
