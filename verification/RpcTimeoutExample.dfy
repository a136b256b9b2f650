/** A run, without restarts and with a single bind, in which one timed-out call makes the
    server answer FORGOTTEN to another call whose caller is still waiting. */
module RpcTimeoutExample {
  import opened Basics
  import opened RpcTypes
  import opened Wire
  import opened RpcProtocol
  import opened RpcInvariant
  import opened RpcTheorems
  import AckWindow
  import RW = ReplyWindow

  const CLT: nat := 7
  const SRV: nat := 9

  function Req(xid: nat, proc: nat, srv: nat, xidRep: nat): Request {
    Request(Header(xid, proc, CLT, srv, xidRep), [])
  }

  const BIND1 := Req(1, BIND, 0, 0)
  const CALL2 := Req(2, 5, SRV, 1)
  const CALL3 := Req(3, 5, SRV, 1)
  const CALL4 := Req(4, 5, SRV, 2)
  const BOUND := Reply(1, 0, Pack32(SRV))

  ghost predicate At(ss: seq<System>, acts: seq<Action>, s: System) {
    Run(ss, acts) && ss[|acts|] == s
  }

  /** One client and its server; no restart has happened. */
  ghost function World(c: Client, sv: Server, requests: set<Request>, replies: set<Envelope>,
                       issued: map<CallId, Request>, returned: map<CallId, Caller>, bound: set<CallId>,
                       log: seq<Admission>, execs: map<nat, Reply>): System {
    System(map[CLT := c], sv, {}, requests, replies, issued, returned, {}, bound, log, execs)
  }

  ghost const WAIT := Caller(false, 0, [])
  ghost const ADMIT1 := Admission(SRV, BIND1)
  ghost const ID1 := CallId(CLT, 1)
  ghost const ID2 := CallId(CLT, 2)
  ghost const ID3 := CallId(CLT, 3)
  ghost const ID4 := CallId(CLT, 4)
  ghost const ANSWER1 := Caller(true, 0, Pack32(SRV))

  ghost function Start(): System {
    World(InitClient(CLT), Server(SRV, map[], map[]), {}, {}, map[], map[], {}, [], map[])
  }

  /** The bind has been issued, sent and admitted. */
  ghost function BindAdmitted(): System {
    World(Client(CLT, 0, false, 2, map[1 := WAIT], [0], None, -1),
          Server(SRV, map[CLT := [RW.Entry(1, None)]], map[0 := Job(BIND1, Admitted)]),
          {BIND1}, {}, map[ID1 := BIND1], map[], {}, [ADMIT1], map[])
  }

  /** It has been executed and answered. */
  ghost function BindAnswered(): System {
    World(Client(CLT, 0, false, 2, map[1 := WAIT], [0], None, -1),
          Server(SRV, map[CLT := [RW.Entry(1, Some(BOUND))]], map[]),
          {BIND1}, {Envelope(CLT, BOUND)}, map[ID1 := BIND1], map[], {}, [ADMIT1], map[0 := BOUND])
  }

  /** The client is bound. */
  ghost function Bound(): System {
    World(Client(CLT, SRV, true, 2, map[], [1], None, -1),
          Server(SRV, map[CLT := [RW.Entry(1, Some(BOUND))]], map[]),
          {BIND1}, {Envelope(CLT, BOUND)}, map[ID1 := BIND1], map[ID1 := ANSWER1], {ID1}, [ADMIT1], map[0 := BOUND])
  }

  /** Calls 2 and 3 were issued, nothing was sent, and 2 timed out. */
  ghost function TimedOut(): System {
    World(Client(CLT, SRV, true, 4, map[3 := WAIT], [2], None, -1),
          Server(SRV, map[CLT := [RW.Entry(1, Some(BOUND))]], map[]),
          {BIND1}, {Envelope(CLT, BOUND)}, map[ID1 := BIND1, ID2 := CALL2, ID3 := CALL3],
          map[ID1 := ANSWER1, ID2 := WAIT], {ID1}, [ADMIT1], map[0 := BOUND])
  }

  /** Call 4, which acknowledges 2, reached the server; the request of call 3 is on its way. */
  ghost function CutOff(): System {
    World(Client(CLT, SRV, true, 5, map[3 := WAIT, 4 := WAIT], [2], None, -1),
          Server(SRV, map[CLT := [RW.Entry(4, None)]], map[1 := Job(CALL4, Admitted)]),
          {BIND1, CALL4, CALL3}, {Envelope(CLT, BOUND)},
          map[ID1 := BIND1, ID2 := CALL2, ID3 := CALL3, ID4 := CALL4],
          map[ID1 := ANSWER1, ID2 := WAIT], {ID1}, [ADMIT1, Admission(SRV, CALL4)], map[0 := BOUND])
  }

  // ---- the windows along the run ----

  lemma ServerWindows()
    ensures RW.Classify([], 1).New? && RW.Check([], 1, 0) == [RW.Entry(1, None)]
    ensures RW.Store([RW.Entry(1, None)], 1, BOUND) == [RW.Entry(1, Some(BOUND))]
  {
  }

  lemma ServerCutsOff(m: Reply)
    ensures RW.Classify([RW.Entry(1, Some(m))], 4).New?
    ensures RW.Check([RW.Entry(1, Some(m))], 4, 2) == [RW.Entry(4, None)]
    ensures RW.Classify([RW.Entry(4, None)], 3).Forgotten?
  {
    var e, f := RW.Entry(1, Some(m)), RW.Entry(4, None);
    assert [e][1..] == [];
    assert RW.Find([e][1..], 4) == 0;
    assert RW.Admit([e][1..], 4) == [f];
    assert RW.Admit([e], 4) == [e, f];
    assert [e, f][1..] == [f];
    assert RW.Trim([f], 2) == [f];
    assert [f][1..] == [];
  }

  /** The next xid in order moves a window of one element up. */
  lemma NextInOrder(x: nat)
    ensures AckWindow.Update([x], x + 1) == [x + 1]
  {
    var w := [x, x + 1];
    assert [x][1..] == [];
    assert AckWindow.Place([x], x + 1) == 1;
    assert AckWindow.Insert([x], x + 1) == w;
    AckWindow.CompressSkips(w, 1);
    assert w[1..] == [x + 1];
    AckWindow.CompressStops([x + 1]);
  }

  // ---- the run ----

  lemma AdmitBind() returns (ss: seq<System>, acts: seq<Action>)
    ensures At(ss, acts, BindAdmitted())
  {
    ServerWindows();
    ss, acts := [Start()], [];
    ss, acts := RunSnoc(ss, acts, Call(CLT, BIND, []));
    ss, acts := RunSnoc(ss, acts, Transmit(CLT, 1));
    assert ss[2].requests == {BIND1};
    ss, acts := RunSnoc(ss, acts, Dispatch(BIND1));
  }

  lemma AnswerBind(ss: seq<System>, acts: seq<Action>) returns (ss': seq<System>, acts': seq<Action>)
    requires At(ss, acts, BindAdmitted())
    ensures At(ss', acts', BindAnswered())
  {
    ServerWindows();
    ss', acts' := RunSnoc(ss, acts, Execute(0, 0, Pack32(SRV)));
    ss', acts' := RunSnoc(ss', acts', Record(0));
    ss', acts' := RunSnoc(ss', acts', Send(0));
  }

  /** The bind's caller has its answer and is about to leave the loop. */
  ghost function BindDelivered(): System {
    BindAnswered().(clients := map[CLT := Client(CLT, 0, false, 2, map[1 := ANSWER1], [1], None, -1)])
  }

  lemma BindGotPdu()
    ensures Enabled(BindAnswered(), Deliver(CLT, BOUND)) && DeliverStep(BindAnswered(), CLT, BOUND) == BindDelivered()
  {
    var c := BindAnswered().clients[CLT];
    BoundGotPdu(c);
    OneClient(c, GotPdu(c, BOUND));
  }

  lemma BoundGotPdu(c: Client)
    requires c.window == [0] && c.calls == map[1 := WAIT]
    ensures GotPdu(c, BOUND) == c.(calls := map[1 := ANSWER1], window := [1])
  {
    NextInOrder(0);
    assert map[1 := WAIT][1 := ANSWER1] == map[1 := ANSWER1];
  }

  lemma BindReturns()
    ensures
      && Enabled(BindDelivered(), Return(CLT, 1))
      && var s := ReturnStep(BindDelivered(), CLT, 1);
         Enabled(s, BindDone(CLT, 1)) && BindDoneStep(s, CLT, 1) == Bound()
  {
    EndBindCall(BindDelivered().clients[CLT]);
    Pack32RoundTrip(SRV);
  }

  lemma EndBindCall(c: Client)
    requires c.window == [1] && c.calls == map[1 := ANSWER1]
    ensures EndCall(c, 1) == c.(calls := map[])
  {
    assert map[1 := ANSWER1] - {1} == map[];
  }

  lemma FinishBind(ss: seq<System>, acts: seq<Action>) returns (ss': seq<System>, acts': seq<Action>)
    requires At(ss, acts, BindAnswered())
    ensures At(ss', acts', Bound())
  {
    BindGotPdu();
    BindReturns();
    ss', acts' := RunSnoc(ss, acts, Deliver(CLT, BOUND));
    ss', acts' := RunSnoc(ss', acts', Return(CLT, 1));
    ss', acts' := RunSnoc(ss', acts', BindDone(CLT, 1));
  }

  /** The step that gives call 2 up, on the state where 2 and 3 wait. */
  ghost function TwoWaiting(): System {
    TimedOut().(
      clients := map[CLT := Client(CLT, SRV, true, 4, map[2 := WAIT, 3 := WAIT], [1], None, -1)],
      returned := map[ID1 := ANSWER1])
  }

  lemma EndCall2(c: Client)
    requires c.window == [1] && c.calls == map[2 := WAIT, 3 := WAIT]
    ensures EndCall(c, 2) == c.(calls := map[3 := WAIT], window := [2])
  {
    NextInOrder(1);
    assert map[2 := WAIT, 3 := WAIT] - {2} == map[3 := WAIT];
  }

  lemma GiveUpCall2()
    ensures Enabled(TwoWaiting(), Return(CLT, 2)) && ReturnStep(TwoWaiting(), CLT, 2) == TimedOut()
  {
    var c := TwoWaiting().clients[CLT];
    EndCall2(c);
    OneClient(c, EndCall(c, 2));
    ReturnedToo(ANSWER1, WAIT);
  }

  lemma OneClient(c: Client, c': Client)
    ensures map[CLT := c][CLT := c'] == map[CLT := c']
  {
  }

  lemma ReturnedToo(a: Caller, b: Caller)
    ensures map[ID1 := a][ID2 := b] == map[ID1 := a, ID2 := b]
  {
  }

  lemma TimeOut(ss: seq<System>, acts: seq<Action>) returns (ss': seq<System>, acts': seq<Action>)
    requires At(ss, acts, Bound())
    ensures At(ss', acts', TimedOut())
  {
    ss', acts' := RunSnoc(ss, acts, Call(CLT, 5, []));
    ss', acts' := RunSnoc(ss', acts', Call(CLT, 5, []));
    assert ss'[|acts'|] == TwoWaiting();
    GiveUpCall2();
    ss', acts' := RunSnoc(ss', acts', Return(CLT, 2));
  }

  lemma CutOffCall3(ss: seq<System>, acts: seq<Action>) returns (ss': seq<System>, acts': seq<Action>)
    requires At(ss, acts, TimedOut())
    ensures At(ss', acts', CutOff())
  {
    ServerCutsOff(BOUND);
    ss', acts' := RunSnoc(ss, acts, Call(CLT, 5, []));
    ss', acts' := RunSnoc(ss', acts', Transmit(CLT, 4));
    ss', acts' := RunSnoc(ss', acts', Dispatch(CALL4));
    ss', acts' := RunSnoc(ss', acts', Transmit(CLT, 3));
  }

  /** The claim that a waiting call is never forgotten fails as soon as calls may time out. */
  lemma ATimeoutForgetsALiveCall() returns (ss: seq<System>, acts: seq<Action>)
    ensures Run(ss, acts)
    ensures
      var s := ss[|acts|];
      && s.past == {} && (forall id :: id in s.issued ==> (s.issued[id].h.proc == BIND <==> id.xid == 1))
      && CALL3 in s.requests && Waiting(s, IdOf(CALL3)) && StatusOf(s.server, CALL3.h).Forgotten?
  {
    ServerCutsOff(BOUND);
    ss, acts := AdmitBind();
    ss, acts := AnswerBind(ss, acts);
    ss, acts := FinishBind(ss, acts);
    ss, acts := TimeOut(ss, acts);
    ss, acts := CutOffCall3(ss, acts);
  }
}
