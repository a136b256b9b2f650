/** The server's actions keep the invariant. */
module RpcServerSteps {
  import opened Basics
  import opened RpcTypes
  import opened RpcProtocol
  import opened RpcInvariant
  import RW = ReplyWindow

  // ---- adding an answer to the network ----

  lemma AnswerCallers(cs: Clients, issued: Issued, returned: map<CallId, Caller>, replies: set<Envelope>, e: Envelope)
    requires CallersInv(cs, issued, returned, replies)
    ensures CallersInv(cs, issued, returned, replies + {e})
  {
  }

  lemma AnswerReplies(issued: Issued, log: seq<Admission>, execs: map<nat, Reply>, replies: set<Envelope>, e: Envelope)
    requires RepliesInv(issued, log, execs, replies) && ReplyOk(issued, log, execs, e)
    ensures RepliesInv(issued, log, execs, replies + {e})
  {
  }

  lemma AnswerKeeps(s: System, n: nat, m: Reply)
    requires Inv(s) && ReplyOk(s.issued, s.log, s.execs, Envelope(n, m))
    ensures Inv(AddAnswer(s, n, m))
  {
    AnswerCallers(s.clients, s.issued, s.returned, s.replies, Envelope(n, m));
    AnswerReplies(s.issued, s.log, s.execs, s.replies, Envelope(n, m));
  }

  /** Checking a request that is not NEW leaves every window as it was. */
  lemma CheckedWindows(sv: Server, h: Header)
    requires !StatusOf(sv, h).New?
    ensures forall n: nat :: WindowOf(CheckRequest(sv, h), n) == WindowOf(sv, n)
  {
  }

  lemma SameWindows(s: System, sv': Server)
    requires ServerSide(s) && sv'.nonce == s.server.nonce && sv'.jobs == s.server.jobs
    requires forall n: nat :: WindowOf(sv', n) == WindowOf(s.server, n)
    ensures ServerSide(s.(server := sv'))
  {
    assert WindowsInv(sv', s.log) by {
      forall j | 0 <= j < |s.log| && s.log[j].inc == sv'.nonce ensures Remembered(sv', s.log[j].req.h) {
        assert Remembered(s.server, s.log[j].req.h);
      }
    }
    assert JobsInv(sv', s.log, s.execs) by {
      forall j | j in sv'.jobs ensures JobOk(sv', s.log, s.execs, j) {
        assert JobOk(s.server, s.log, s.execs, j);
      }
      forall j | 0 <= j < |s.log| && s.log[j].inc == sv'.nonce ensures EntryOk(sv', s.log, s.execs, j) {
        assert EntryOk(s.server, s.log, s.execs, j);
      }
    }
  }

  /** A DONE verdict returns what the one execution of that request produced. */
  lemma DoneReplyIsExecuted(s: System, h: Header)
    requires ServerSide(s) && StatusOf(s.server, h).Done? && CallId(h.cltNonce, h.xid) in s.issued
    ensures ReplyOk(s.issued, s.log, s.execs, Envelope(h.cltNonce, StatusOf(s.server, h).reply))
    ensures StatusOf(s.server, h).reply.xid == h.xid
  {
    var w := WindowOf(s.server, h.cltNonce);
    RW.ClassifyMeaning(w, h.xid);
    assert WasAdmitted(s.log, s.server.nonce, h.cltNonce, h.xid);
    var j :| 0 <= j < |s.log| && Admits(s.log[j], s.server.nonce, h.cltNonce, h.xid);
    assert EntryOk(s.server, s.log, s.execs, j);
    assert ExecOk(s.log, j, s.execs[j]);
    assert ProducedBy(s.log, s.execs, Envelope(h.cltNonce, s.execs[j]), j);
  }

  // ---- NEW ----

  /** A request told NEW was never admitted by this incarnation before. */
  lemma NewIsNew(sv: Server, log: seq<Admission>, h: Header, j: nat)
    requires WindowsInv(sv, log) && StatusOf(sv, h).New?
    requires j < |log| && log[j].inc == sv.nonce
    ensures !(log[j].req.h.cltNonce == h.cltNonce && log[j].req.h.xid == h.xid)
  {
    RW.ClassifyMeaning(WindowOf(sv, h.cltNonce), h.xid);
    assert Remembered(sv, log[j].req.h);
  }

  /** The windows after a NEW verdict, seen through their maps and fronts. */
  lemma NewWindows(sv: Server, h: Header)
    requires RW.Sorted(WindowOf(sv, h.cltNonce)) && StatusOf(sv, h).New? && h.xidRep < h.xid
    ensures
      var sv' := CheckRequest(sv, h);
      var w, w' := WindowOf(sv, h.cltNonce), WindowOf(sv', h.cltNonce);
      && RW.Sorted(w') && w' != [] && h.xidRep <= w'[0].xid <= h.xid
      && RW.Entries(w') == (map x | x in RW.Entries(w) && x >= h.xidRep :: RW.Entries(w)[x])[h.xid := None]
      && (w != [] ==> w[0].xid <= w'[0].xid)
      && (forall n: nat :: n != h.cltNonce ==> WindowOf(sv', n) == WindowOf(sv, n))
  {
    RW.CheckMeaning(WindowOf(sv, h.cltNonce), h.xid, h.xidRep);
  }

  lemma AdmitWindows(sv: Server, log: seq<Admission>, r: Request)
    requires WindowsInv(sv, log) && StatusOf(sv, r.h).New? && r.h.xidRep < r.h.xid
    ensures WindowsInv(CheckRequest(sv, r.h), log + [Admission(sv.nonce, r)])
  {
    var h := r.h;
    var sv' := CheckRequest(sv, h);
    var log' := log + [Admission(sv.nonce, r)];
    NewWindows(sv, h);
    forall n: nat, x: nat | x in RW.Entries(WindowOf(sv', n)) ensures WasAdmitted(log', sv.nonce, n, x) {
      if n == h.cltNonce && x == h.xid {
        assert Admits(log'[|log|], sv.nonce, n, x);
      } else {
        assert WasAdmitted(log, sv.nonce, n, x);
        var j :| 0 <= j < |log| && Admits(log[j], sv.nonce, n, x);
        assert Admits(log'[j], sv.nonce, n, x);
      }
    }
    forall j | 0 <= j < |log'| && log'[j].inc == sv.nonce ensures Remembered(sv', log'[j].req.h) {
      if j < |log| {
        assert log'[j] == log[j];
        assert Remembered(sv, log[j].req.h);
      }
    }
  }

  lemma AdmitLog(issued: Issued, incs: set<nat>, sv: Server, log: seq<Admission>, r: Request)
    requires LogInv(issued, incs, log) && WindowsInv(sv, log) && StatusOf(sv, r.h).New?
    requires IsIssued(issued, r) && sv.nonce in incs && !WrongIncarnation(sv, r.h)
    requires r.h.proc == BIND <==> r.h.srvNonce == 0
    ensures LogInv(issued, incs, log + [Admission(sv.nonce, r)])
  {
    var log' := log + [Admission(sv.nonce, r)];
    forall i, j | 0 <= i < j < |log'| && log'[i].inc == log'[j].inc ensures IdOf(log'[i].req) != IdOf(log'[j].req) {
      if j == |log| {
        NewIsNew(sv, log, r.h, i);
      }
    }
  }

  lemma AdmitOutstanding(sv: Server, log: seq<Admission>, cs: Clients, r: Request)
    requires OutstandingInv(sv, log, cs) && WindowsInv(sv, log) && StatusOf(sv, r.h).New?
    requires r.h.xidRep < r.h.xid && r.h.cltNonce in cs
    requires |cs[r.h.cltNonce].window| > 0 && r.h.xidRep <= cs[r.h.cltNonce].window[0]
    ensures OutstandingInv(CheckRequest(sv, r.h), log + [Admission(sv.nonce, r)], cs)
  {
    NewWindows(sv, r.h);
  }

  function AdmittedServer(sv: Server, j: nat, r: Request): Server {
    CheckRequest(sv, r.h).(jobs := sv.jobs[j := Job(r, Admitted)])
  }

  lemma AdmitEntry(sv: Server, log: seq<Admission>, execs: map<nat, Reply>, r: Request, j: nat)
    requires WindowsInv(sv, log) && StatusOf(sv, r.h).New? && r.h.xidRep < r.h.xid
    requires j < |log| && log[j].inc == sv.nonce && EntryOk(sv, log, execs, j)
    ensures EntryOk(AdmittedServer(sv, |log|, r), log + [Admission(sv.nonce, r)], execs, j)
  {
    NewWindows(sv, r.h);
    NewIsNew(sv, log, r.h, j);
    assert WindowOf(AdmittedServer(sv, |log|, r), log[j].req.h.cltNonce) == WindowOf(CheckRequest(sv, r.h), log[j].req.h.cltNonce);
  }

  lemma AdmitJobs(sv: Server, log: seq<Admission>, execs: map<nat, Reply>, r: Request)
    requires JobsInv(sv, log, execs) && WindowsInv(sv, log) && ExecsInv(log, execs)
    requires StatusOf(sv, r.h).New? && r.h.xidRep < r.h.xid
    ensures JobsInv(AdmittedServer(sv, |log|, r), log + [Admission(sv.nonce, r)], execs)
  {
    var sv' := AdmittedServer(sv, |log|, r);
    var log' := log + [Admission(sv.nonce, r)];
    forall j | j in sv'.jobs ensures JobOk(sv', log', execs, j) {
      if j != |log| {
        assert JobOk(sv, log, execs, j);
      }
    }
    forall j | 0 <= j < |log'| && log'[j].inc == sv.nonce ensures EntryOk(sv', log', execs, j) {
      if j < |log| {
        assert EntryOk(sv, log, execs, j);
        AdmitEntry(sv, log, execs, r, j);
      } else {
        NewWindows(sv, r.h);
        assert WindowOf(sv', r.h.cltNonce) == WindowOf(CheckRequest(sv, r.h), r.h.cltNonce);
      }
    }
  }

  lemma AdmitReplies(issued: Issued, log: seq<Admission>, execs: map<nat, Reply>, replies: set<Envelope>, a: Admission)
    requires RepliesInv(issued, log, execs, replies)
    ensures RepliesInv(issued, log + [a], execs, replies)
  {
    forall e | e in replies ensures ReplyOk(issued, log + [a], execs, e) {
      assert ReplyOk(issued, log, execs, e);
      if e.reply.ret >= 0 {
        var j: nat :| ProducedBy(log, execs, e, j);
        assert ProducedBy(log + [a], execs, e, j);
      }
    }
  }

  lemma AdmitServerSide(s: System, r: Request)
    requires ServerSide(s) && IsIssued(s.issued, r) && HeaderOk(s.clients, Incarnations(s), IdOf(r), r.h)
    requires !WrongIncarnation(s.server, r.h) && StatusOf(s.server, r.h).New?
    ensures ServerSide(AdmitStep(s, r))
  {
    var s' := AdmitStep(s, r);
    var a := Admission(s.server.nonce, r);
    AdmitWindows(s.server, s.log, r);
    JobsDoNotMatter(CheckRequest(s.server, r.h), s'.server, s'.log, s.clients);
    AdmitLog(s.issued, Incarnations(s), s.server, s.log, r);
    AdmitOutstanding(s.server, s.log, s.clients, r);
    AdmitJobs(s.server, s.log, s.execs, r);
    AdmitReplies(s.issued, s.log, s.execs, s.replies, a);
    assert ExecsInv(s'.log, s.execs) by {
      forall j | j in s.execs ensures ExecOk(s'.log, j, s.execs[j]) {
        assert ExecOk(s.log, j, s.execs[j]);
      }
    }
  }

  lemma JobsDoNotMatter(sv: Server, sv': Server, log: seq<Admission>, cs: Clients)
    requires sv'.nonce == sv.nonce && sv'.windows == sv.windows
    ensures WindowsInv(sv, log) ==> WindowsInv(sv', log)
    ensures WindowsInv(sv, log) && OutstandingInv(sv, log, cs) ==> OutstandingInv(sv', log, cs)
  {
    assert forall n: nat :: WindowOf(sv', n) == WindowOf(sv, n);
    if WindowsInv(sv, log) {
      forall j | 0 <= j < |log| && log[j].inc == sv'.nonce ensures Remembered(sv', log[j].req.h) {
        assert Remembered(sv, log[j].req.h);
      }
    }
  }

  // ---- dispatch as a whole ----

  lemma DispatchKeeps(s: System, r: Request)
    requires Inv(s) && r in s.requests
    ensures Inv(DispatchStep(s, r))
  {
    var h := r.h;
    assert IsIssued(s.issued, r);
    assert HeaderOk(s.clients, Incarnations(s), IdOf(r), h);
    if WrongIncarnation(s.server, h) {
      AnswerKeeps(s, h.cltNonce, Reply(h.xid, OLDSRV_FAILURE, []));
    } else if StatusOf(s.server, h).New? {
      AdmitServerSide(s, r);
    } else {
      var s' := s.(server := CheckRequest(s.server, h));
      CheckedWindows(s.server, h);
      SameWindows(s, s'.server);
      match StatusOf(s.server, h) {
        case InProgress =>
        case Done(reply) =>
          DoneReplyIsExecuted(s, h);
          AnswerKeeps(s', h.cltNonce, reply);
        case Forgotten =>
          AnswerKeeps(s', h.cltNonce, Reply(h.xid, ATMOSTONCE_FAILURE, []));
      }
    }
  }

  // ---- the rest of a dispatch thread ----

  lemma ExecuteReplies(issued: Issued, log: seq<Admission>, execs: map<nat, Reply>, replies: set<Envelope>, j: nat, m: Reply)
    requires RepliesInv(issued, log, execs, replies) && j !in execs
    ensures RepliesInv(issued, log, execs[j := m], replies)
  {
    forall e | e in replies ensures ReplyOk(issued, log, execs[j := m], e) {
      assert ReplyOk(issued, log, execs, e);
      if e.reply.ret >= 0 {
        var k: nat :| ProducedBy(log, execs, e, k);
        assert ProducedBy(log, execs[j := m], e, k);
      }
    }
  }

  lemma ExecuteJobs(sv: Server, log: seq<Admission>, execs: map<nat, Reply>, j: nat, m: Reply)
    requires JobsInv(sv, log, execs) && j in sv.jobs && sv.jobs[j].phase.Admitted?
    ensures JobsInv(SetPhase(sv, j, Executed(m)), log, execs[j := m])
  {
    var sv' := SetPhase(sv, j, Executed(m));
    assert JobOk(sv, log, execs, j);
    forall k | k in sv'.jobs ensures JobOk(sv', log, execs[j := m], k) {
      assert JobOk(sv, log, execs, k);
    }
    forall k | 0 <= k < |log| && log[k].inc == sv.nonce ensures EntryOk(sv', log, execs[j := m], k) {
      assert EntryOk(sv, log, execs, k);
    }
  }

  lemma ExecuteExecs(log: seq<Admission>, execs: map<nat, Reply>, j: nat, m: Reply)
    requires ExecsInv(log, execs) && ExecOk(log, j, m)
    ensures ExecsInv(log, execs[j := m])
  {
  }

  lemma ExecuteServerSide(s: System, j: nat, ret: int, body: Bytes)
    requires ServerSide(s) && CanExecute(s, j, ret, body)
    ensures ServerSide(ExecuteStep(s, j, ret, body))
  {
    var s' := ExecuteStep(s, j, ret, body);
    var m := Reply(s.server.jobs[j].req.h.xid, ret, body);
    assert JobOk(s.server, s.log, s.execs, j);
    ExecuteJobs(s.server, s.log, s.execs, j, m);
    ExecuteReplies(s.issued, s.log, s.execs, s.replies, j, m);
    ExecuteExecs(s.log, s.execs, j, m);
    JobsDoNotMatter(s.server, s'.server, s.log, s.clients);
  }

  lemma ExecuteKeeps(s: System, j: nat, ret: int, body: Bytes)
    requires Inv(s) && CanExecute(s, j, ret, body)
    ensures Inv(ExecuteStep(s, j, ret, body))
  {
    ExecuteServerSide(s, j, ret, body);
  }

  /** add_reply touches one entry of one window and no front. */
  lemma RecordWindows(sv: Server, h: Header, m: Reply)
    requires forall n: nat :: RW.Sorted(WindowOf(sv, n))
    ensures
      var sv' := AddReply(sv, h, m);
      var w, w' := WindowOf(sv, h.cltNonce), WindowOf(sv', h.cltNonce);
      && RW.Sorted(w') && |w'| == |w| && (w != [] ==> w'[0].xid == w[0].xid)
      && RW.Entries(w') == (if h.xid in RW.Entries(w) then RW.Entries(w)[h.xid := Some(m)] else RW.Entries(w))
      && (forall n: nat :: n != h.cltNonce ==> WindowOf(sv', n) == WindowOf(sv, n))
  {
    RW.StoreMeaning(WindowOf(sv, h.cltNonce), h.xid, m);
  }

  lemma RecordWindowsInv(sv: Server, log: seq<Admission>, cs: Clients, h: Header, m: Reply)
    requires WindowsInv(sv, log) && OutstandingInv(sv, log, cs)
    ensures WindowsInv(AddReply(sv, h, m), log) && OutstandingInv(AddReply(sv, h, m), log, cs)
  {
    var sv' := AddReply(sv, h, m);
    RecordWindows(sv, h, m);
    forall n: nat ensures RW.Entries(WindowOf(sv', n)).Keys == RW.Entries(WindowOf(sv, n)).Keys {
    }
    forall j | 0 <= j < |log| && log[j].inc == sv'.nonce ensures Remembered(sv', log[j].req.h) {
      assert Remembered(sv, log[j].req.h);
    }
    forall n: nat, x: nat | x in RW.Entries(WindowOf(sv', n)) ensures WasAdmitted(log, sv'.nonce, n, x) {
      assert x in RW.Entries(WindowOf(sv, n));
    }
  }

  function RecordedServer(sv: Server, j: nat): Server
    requires j in sv.jobs && sv.jobs[j].phase.Executed?
  {
    var job := sv.jobs[j];
    SetPhase(AddReply(sv, job.req.h, job.phase.reply), j, Stored(job.phase.reply))
  }

  lemma RecordEntry(sv: Server, log: seq<Admission>, execs: map<nat, Reply>, j: nat, k: nat)
    requires forall n: nat :: RW.Sorted(WindowOf(sv, n))
    requires j in sv.jobs && sv.jobs[j].phase.Executed? && JobOk(sv, log, execs, j)
    requires k < |log| && log[k].inc == sv.nonce && EntryOk(sv, log, execs, k)
    requires k != j ==> IdOf(log[k].req) != IdOf(log[j].req)
    ensures EntryOk(RecordedServer(sv, j), log, execs, k)
  {
    var job := sv.jobs[j];
    RecordWindows(sv, job.req.h, job.phase.reply);
    assert forall n: nat :: WindowOf(RecordedServer(sv, j), n) == WindowOf(AddReply(sv, job.req.h, job.phase.reply), n);
  }

  lemma RecordJobs(sv: Server, log: seq<Admission>, execs: map<nat, Reply>, j: nat)
    requires JobsInv(sv, log, execs) && (forall n: nat :: RW.Sorted(WindowOf(sv, n))) && NoRepeat(log)
    requires j in sv.jobs && sv.jobs[j].phase.Executed?
    ensures JobsInv(RecordedServer(sv, j), log, execs)
  {
    var sv' := RecordedServer(sv, j);
    assert JobOk(sv, log, execs, j);
    forall k | k in sv'.jobs ensures JobOk(sv', log, execs, k) {
      assert JobOk(sv, log, execs, k);
    }
    forall k | 0 <= k < |log| && log[k].inc == sv.nonce ensures EntryOk(sv', log, execs, k) {
      assert EntryOk(sv, log, execs, k);
      RecordEntry(sv, log, execs, j, k);
    }
  }

  lemma RecordKeeps(s: System, j: nat)
    requires Inv(s) && CanRecord(s, j)
    ensures Inv(RecordStep(s, j))
  {
    var job := s.server.jobs[j];
    var sv := AddReply(s.server, job.req.h, job.phase.reply);
    RecordWindowsInv(s.server, s.log, s.clients, job.req.h, job.phase.reply);
    JobsDoNotMatter(sv, RecordStep(s, j).server, s.log, s.clients);
    RecordJobs(s.server, s.log, s.execs, j);
  }

  lemma SendJobs(sv: Server, log: seq<Admission>, execs: map<nat, Reply>, j: nat)
    requires JobsInv(sv, log, execs) && j in sv.jobs && sv.jobs[j].phase.Stored?
    ensures JobsInv(sv.(jobs := sv.jobs - {j}), log, execs)
  {
    var sv' := sv.(jobs := sv.jobs - {j});
    forall k | k in sv'.jobs ensures JobOk(sv', log, execs, k) {
      assert JobOk(sv, log, execs, k);
    }
    forall k | 0 <= k < |log| && log[k].inc == sv.nonce ensures EntryOk(sv', log, execs, k) {
      assert EntryOk(sv, log, execs, k);
    }
  }

  lemma SendKeeps(s: System, j: nat)
    requires Inv(s) && CanSend(s, j)
    ensures Inv(SendStep(s, j))
  {
    var job := s.server.jobs[j];
    var s' := s.(server := s.server.(jobs := s.server.jobs - {j}));
    SendJobs(s.server, s.log, s.execs, j);
    JobsDoNotMatter(s.server, s'.server, s.log, s.clients);
    assert Inv(s');
    SentReplyOk(s, j);
    AnswerKeeps(s', job.req.h.cltNonce, job.phase.reply);
  }

  lemma SentReplyOk(s: System, j: nat)
    requires ServerSide(s) && CanSend(s, j)
    ensures ReplyOk(s.issued, s.log, s.execs, Envelope(s.server.jobs[j].req.h.cltNonce, s.server.jobs[j].phase.reply))
  {
    var e := Envelope(s.server.jobs[j].req.h.cltNonce, s.server.jobs[j].phase.reply);
    assert JobOk(s.server, s.log, s.execs, j);
    assert ExecOk(s.log, j, s.execs[j]);
    assert ProducedBy(s.log, s.execs, e, j);
    assert IsIssued(s.issued, s.log[j].req);
  }

  // ---- restart ----

  lemma RestartKeeps(s: System, nonce: nat)
    requires Inv(s) && CanRestart(s, nonce)
    ensures Inv(RestartStep(s, nonce))
  {
    var s' := RestartStep(s, nonce);
    assert Incarnations(s') == Incarnations(s) + {nonce};
    assert forall n: nat :: WindowOf(s'.server, n) == [];
    forall id | id in s.issued ensures HeaderOk(s.clients, Incarnations(s'), id, s.issued[id].h) {
      assert HeaderOk(s.clients, Incarnations(s), id, s.issued[id].h);
    }
  }
}
