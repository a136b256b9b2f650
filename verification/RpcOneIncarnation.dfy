/** Fronts: a client's never moves down, and neither does the server's as long as it is not
    restarted.  Also, what the server answers straight away. */
module RpcOneIncarnation {
  import opened Basics
  import opened RpcTypes
  import opened RpcProtocol
  import opened RpcInvariant
  import opened RpcClientSteps
  import opened RpcServerSteps
  import opened RpcTheorems
  import RW = ReplyWindow

  // ---- fronts only move up ----

  /** The server's window for client n has a front, at or above x. */
  ghost predicate FrontReached(sv: Server, n: nat, x: int) {
    WindowOf(sv, n) != [] && WindowOf(sv, n)[0].xid >= x
  }

  ghost predicate ServerFrontsGrow(sv: Server, sv': Server) {
    forall n: nat :: WindowOf(sv, n) != [] ==> FrontReached(sv', n, WindowOf(sv, n)[0].xid)
  }

  ghost predicate ClientsLater(cs: Clients, cs': Clients) {
    forall n :: n in cs ==> n in cs' && Later(cs[n], cs'[n])
  }

  lemma ClientsLaterReflexive(cs: Clients)
    requires ClientsInv(cs)
    ensures ClientsLater(cs, cs)
  {
    forall n | n in cs ensures Later(cs[n], cs[n]) {
      assert ClientOk(cs[n]);
    }
  }

  lemma OneClientLater(cs: Clients, n: nat, c': Client)
    requires ClientsInv(cs) && n in cs && Later(cs[n], c')
    ensures ClientsLater(cs, cs[n := c'])
  {
    ClientsLaterReflexive(cs);
  }

  lemma ClientActionLater(s: System, a: Action)
    requires ClientsInv(s.clients) && Enabled(s, a) && ByClient(a)
    requires a.Deliver? ==> Later(s.clients[a.n], GotPdu(s.clients[a.n], a.m))
    ensures ClientsLater(s.clients, Apply(s, a).clients)
  {
    if !a.Transmit? {
      assert ClientOk(s.clients[a.n]);
      if a.Return? {
        EndCallOk(s.clients[a.n], a.x);
      }
      var cs' := Apply(s, a).clients;
      assert cs' == s.clients[a.n := cs'[a.n]];
      OneClientLater(s.clients, a.n, cs'[a.n]);
    } else {
      ClientsLaterReflexive(s.clients);
    }
  }

  lemma ServerActionClients(s: System, a: Action)
    requires Enabled(s, a) && !ByClient(a)
    ensures Apply(s, a).clients == s.clients
  {
    if a.Dispatch? {
      DispatchClients(s, a.r);
    }
  }

  lemma DispatchClients(s: System, r: Request)
    ensures DispatchStep(s, r).clients == s.clients
  {
  }

  lemma ClientActionServer(s: System, a: Action)
    requires Enabled(s, a) && ByClient(a)
    ensures Apply(s, a).server == s.server && Apply(s, a).past == s.past
  {
  }

  lemma CheckFronts(sv: Server, h: Header)
    requires forall n: nat :: RW.Sorted(WindowOf(sv, n))
    requires h.xidRep < h.xid
    ensures ServerFrontsGrow(sv, CheckRequest(sv, h))
  {
    if StatusOf(sv, h).New? {
      NewWindows(sv, h);
    } else {
      CheckedWindows(sv, h);
    }
  }

  lemma DispatchServer(s: System, r: Request)
    ensures
      var sv' := DispatchStep(s, r).server;
      sv'.windows == if WrongIncarnation(s.server, r.h) then s.server.windows else CheckRequest(s.server, r.h).windows
  {
    if ToldNew(s, r) {
      AdmitServer(s, r);
    } else if !WrongIncarnation(s.server, r.h) {
      RepeatServer(s, r);
    }
  }

  lemma RepeatServer(s: System, r: Request)
    requires !WrongIncarnation(s.server, r.h) && !StatusOf(s.server, r.h).New?
    ensures DispatchStep(s, r).server == CheckRequest(s.server, r.h)
  {
  }

  lemma AdmitServer(s: System, r: Request)
    ensures AdmitStep(s, r).server.windows == CheckRequest(s.server, r.h).windows
  {
  }

  lemma ServerActionFronts(s: System, a: Action)
    requires WindowsInv(s.server, s.log) && Enabled(s, a) && !ByClient(a) && !a.Restart?
    requires a.Dispatch? ==> a.r.h.xidRep < a.r.h.xid
    ensures ServerFrontsGrow(s.server, Apply(s, a).server)
  {
    match a {
      case Dispatch(r) =>
        DispatchServer(s, r);
        if WrongIncarnation(s.server, r.h) {
          SameFronts(s.server, DispatchStep(s, r).server);
        } else {
          CheckFronts(s.server, r.h);
          SameFronts(CheckRequest(s.server, r.h), DispatchStep(s, r).server);
        }
      case Record(j) =>
        RecordWindows(s.server, s.server.jobs[j].req.h, s.server.jobs[j].phase.reply);
        SameFronts(AddReply(s.server, s.server.jobs[j].req.h, s.server.jobs[j].phase.reply), RecordStep(s, j).server);
      case Execute(j, _, _) => SameFronts(s.server, Apply(s, a).server);
      case Send(j) => SameFronts(s.server, Apply(s, a).server);
    }
  }

  lemma SameFronts(sv: Server, sv': Server)
    requires sv.windows == sv'.windows
    ensures forall n: nat :: WindowOf(sv', n) == WindowOf(sv, n)
  {
  }

  /** Within one incarnation no front moves down, and clients only move on. */
  ghost predicate FrontsGrow(s: System, s': System) {
    && ClientsLater(s.clients, s'.clients)
    && s.past <= s'.past
    && (s'.past == s.past ==> ServerFrontsGrow(s.server, s'.server))
  }

  lemma NextFronts(s: System, a: Action, s': System)
    requires Inv(s) && Next(s, a, s')
    ensures FrontsGrow(s, s')
  {
    if ByClient(a) {
      if a.Deliver? {
        DeliverOk(s, a.n, a.m);
      }
      ClientActionLater(s, a);
      ClientActionServer(s, a);
    } else {
      ClientsLaterReflexive(s.clients);
      ServerActionClients(s, a);
      if a.Restart? {
        assert s.server.nonce in s'.past && s.server.nonce !in s.past;
      } else {
        if a.Dispatch? {
          DispatchFrame(s, a.r);
          assert IsIssued(s.issued, a.r);
          assert HeaderOk(s.clients, Incarnations(s), IdOf(a.r), a.r.h);
        }
        ServerActionFronts(s, a);
      }
    }
  }

  lemma FrontsGrowTransitive(s0: System, s1: System, s2: System)
    requires FrontsGrow(s0, s1) && FrontsGrow(s1, s2)
    ensures FrontsGrow(s0, s2)
  {
  }

  lemma RunStepFronts(ss: seq<System>, acts: seq<Action>, i: nat)
    requires Run(ss, acts) && i < |acts|
    ensures FrontsGrow(ss[i], ss[i + 1])
  {
    assert Next(ss[i], acts[i], ss[i + 1]);
    RunKeeps(ss, acts, i);
    NextFronts(ss[i], acts[i], ss[i + 1]);
  }

  lemma RunStands(ss: seq<System>, acts: seq<Action>, i: nat)
    requires Run(ss, acts) && i < |ss|
    ensures FrontsGrow(ss[i], ss[i])
  {
    RunKeeps(ss, acts, i);
    ClientsLaterReflexive(ss[i].clients);
  }

  lemma {:induction false} ChainFronts(ss: seq<System>, i: nat, j: nat)
    requires i <= j < |ss| && FrontsGrow(ss[i], ss[i])
    requires forall k :: i <= k < j ==> FrontsGrow(ss[k], ss[k + 1])
    ensures FrontsGrow(ss[i], ss[j])
    decreases j
  {
    if i < j {
      ChainFronts(ss, i, j - 1);
      assert FrontsGrow(ss[j - 1], ss[j - 1 + 1]);
      FrontsGrowTransitive(ss[i], ss[j - 1], ss[j]);
    }
  }

  lemma RunFronts(ss: seq<System>, acts: seq<Action>, i: nat, j: nat)
    requires Run(ss, acts) && i <= j < |ss|
    ensures FrontsGrow(ss[i], ss[j])
  {
    RunStands(ss, acts, i);
    forall k | i <= k < j ensures FrontsGrow(ss[k], ss[k + 1]) {
      RunStepFronts(ss, acts, k);
    }
    ChainFronts(ss, i, j);
  }

  // ---- answers ----

  /** What dispatch answers straight away, if anything. */
  function AnswerOf(s: System, r: Request): Option<Reply> {
    if WrongIncarnation(s.server, r.h) then Some(Reply(r.h.xid, OLDSRV_FAILURE, []))
    else match StatusOf(s.server, r.h)
      case New => None
      case InProgress => None
      case Done(reply) => Some(reply)
      case Forgotten => Some(Reply(r.h.xid, ATMOSTONCE_FAILURE, []))
  }

  lemma DispatchReplies(s: System, r: Request)
    ensures DispatchStep(s, r).replies ==
      match AnswerOf(s, r) { case None => s.replies case Some(m) => s.replies + {Envelope(r.h.cltNonce, m)} }
  {
  }

  lemma OtherReplies(s: System, a: Action)
    requires Enabled(s, a) && !a.Dispatch? && !a.Send?
    ensures Apply(s, a).replies == s.replies
  {
  }

  lemma RightIncarnation(s: System, r: Request)
    requires Inv(s) && s.past == {} && r in s.requests
    ensures IsIssued(s.issued, r) && r.h.xidRep < r.h.xid && !WrongIncarnation(s.server, r.h)
  {
    assert IsIssued(s.issued, r);
    assert HeaderOk(s.clients, Incarnations(s), IdOf(r), r.h);
  }

  lemma RepliesAreIssued(s: System)
    requires RepliesInv(s.issued, s.log, s.execs, s.replies)
    ensures forall e :: e in s.replies ==> CallId(e.clt, e.reply.xid) in s.issued
  {
    forall e | e in s.replies ensures CallId(e.clt, e.reply.xid) in s.issued {
      assert ReplyOk(s.issued, s.log, s.execs, e);
    }
  }

  /** Whatever the verdict, in a single incarnation the server's front for the client has
      reached the request's xid_rep by the time it answers. */
  lemma AnsweredRequestTakenIn(s: System, r: Request)
    requires WindowsInv(s.server, s.log) && LogInv(s.issued, Incarnations(s), s.log)
    requires IsIssued(s.issued, r) && r.h.xidRep < r.h.xid
    requires StatusOf(s.server, r.h).Done? || StatusOf(s.server, r.h).Forgotten?
    ensures FrontReached(s.server, r.h.cltNonce, r.h.xidRep)
  {
    var h := r.h;
    RW.ClassifyMeaning(WindowOf(s.server, h.cltNonce), h.xid);
    if StatusOf(s.server, h).Done? {
      assert WasAdmitted(s.log, s.server.nonce, h.cltNonce, h.xid);
      var j :| 0 <= j < |s.log| && Admits(s.log[j], s.server.nonce, h.cltNonce, h.xid);
      assert Remembered(s.server, s.log[j].req.h);
      assert IsIssued(s.issued, s.log[j].req);
    }
  }

  lemma RunSorted(ss: seq<System>, acts: seq<Action>, i: nat, n: nat)
    requires Run(ss, acts) && i < |ss|
    ensures RW.Sorted(WindowOf(ss[i].server, n))
  {
    RunKeeps(ss, acts, i);
  }

  lemma ReturnedIsGone(ss: seq<System>, acts: seq<Action>, i: nat, id: CallId)
    requires Run(ss, acts) && i < |ss| && id in ss[i].returned
    ensures id.clt in ss[i].clients && id.xid !in ss[i].clients[id.clt].calls
  {
    RunKeeps(ss, acts, i);
  }
}
