/** A run without a single timeout in which a waiting call is lost all the same: one that
    carries the nonce of the running server.  Two binds were issued at once; a restart came
    between their answers, and a call that is refused as OLDSRV counts as finished. */
module RpcRebindExample {
  import opened Basics
  import opened RpcTypes
  import opened Wire
  import opened RpcProtocol
  import opened RpcTheorems
  import opened RpcTimeoutExample
  import opened RpcLiveCalls
  import RW = ReplyWindow

  const SRV2: nat := 11
  const BIND2 := Req(2, BIND, 0, 0)
  const OLD3 := Req(3, 5, SRV, 1)
  const NEW4 := Req(4, 5, SRV2, 3)
  const NEW5 := Req(5, 5, SRV2, 3)
  const BOUND2 := Reply(2, 0, Pack32(SRV2))
  const REFUSED3 := Reply(3, OLDSRV_FAILURE, [])

  ghost const ID5 := CallId(CLT, 5)
  ghost const ANSWER2 := Caller(true, 0, Pack32(SRV2))
  ghost const ANSWER3 := Caller(true, OLDSRV_FAILURE, [])

  ghost function Waits(srv: nat, xid: nat, calls: map<nat, Caller>, front: nat): Client {
    Client(CLT, srv, srv != 0, xid, calls, [front], None, -1)
  }

  // ---- the first bind ----

  /** Both binds have been issued; the first one was admitted. */
  ghost function FirstAdmitted(): System {
    World(Waits(0, 3, map[1 := WAIT, 2 := WAIT], 0),
          Server(SRV, map[CLT := [RW.Entry(1, None)]], map[0 := Job(BIND1, Admitted)]),
          {BIND1, BIND2}, {}, map[ID1 := BIND1, ID2 := BIND2], map[], {}, [ADMIT1], map[])
  }

  ghost function FirstAnswered(): System {
    FirstAdmitted().(
      server := Server(SRV, map[CLT := [RW.Entry(1, Some(BOUND))]], map[]),
      replies := {Envelope(CLT, BOUND)}, execs := map[0 := BOUND])
  }

  ghost function FirstDelivered(): System {
    FirstAnswered().(clients := map[CLT := Waits(0, 3, map[1 := ANSWER1, 2 := WAIT], 1)])
  }

  ghost function FirstBound(): System {
    FirstAnswered().(
      clients := map[CLT := Waits(SRV, 3, map[2 := WAIT], 1)], returned := map[ID1 := ANSWER1], bound := {ID1})
  }

  ghost function BothSent(): System {
    FirstAdmitted().(server := Server(SRV, map[], map[]), log := [])
  }

  lemma SendBoth() returns (ss: seq<System>, acts: seq<Action>)
    ensures At(ss, acts, BothSent())
  {
    ss, acts := [Start()], [];
    ss, acts := RunSnoc(ss, acts, Call(CLT, BIND, []));
    ss, acts := RunSnoc(ss, acts, Call(CLT, BIND, []));
    ss, acts := RunSnoc(ss, acts, Transmit(CLT, 1));
    ss, acts := RunSnoc(ss, acts, Transmit(CLT, 2));
    assert ss[4].requests == {BIND1, BIND2};
  }

  lemma AdmitFirst(ss: seq<System>, acts: seq<Action>) returns (ss': seq<System>, acts': seq<Action>)
    requires At(ss, acts, BothSent())
    ensures At(ss', acts', FirstAdmitted())
  {
    ServerWindows();
    ss', acts' := RunSnoc(ss, acts, Dispatch(BIND1));
  }

  lemma AnswerFirst(ss: seq<System>, acts: seq<Action>) returns (ss': seq<System>, acts': seq<Action>)
    requires At(ss, acts, FirstAdmitted())
    ensures At(ss', acts', FirstAnswered())
  {
    ServerWindows();
    ss', acts' := RunSnoc(ss, acts, Execute(0, 0, Pack32(SRV)));
    ss', acts' := RunSnoc(ss', acts', Record(0));
    ss', acts' := RunSnoc(ss', acts', Send(0));
  }

  lemma FirstGotPdu()
    ensures Enabled(FirstAnswered(), Deliver(CLT, BOUND)) && DeliverStep(FirstAnswered(), CLT, BOUND) == FirstDelivered()
  {
    var c := FirstAnswered().clients[CLT];
    ClientGotFirst(c);
    OneClient(c, GotPdu(c, BOUND));
  }

  lemma ClientGotFirst(c: Client)
    requires c == Waits(0, 3, map[1 := WAIT, 2 := WAIT], 0)
    ensures GotPdu(c, BOUND) == Waits(0, 3, map[1 := ANSWER1, 2 := WAIT], 1)
  {
    NextInOrder(0);
    assert map[1 := WAIT, 2 := WAIT][1 := ANSWER1] == map[1 := ANSWER1, 2 := WAIT];
  }

  lemma FirstReturns()
    ensures
      && Enabled(FirstDelivered(), Return(CLT, 1))
      && var s := ReturnStep(FirstDelivered(), CLT, 1);
         Enabled(s, BindDone(CLT, 1)) && BindDoneStep(s, CLT, 1) == FirstBound()
  {
    assert map[1 := ANSWER1, 2 := WAIT] - {1} == map[2 := WAIT];
    Pack32RoundTrip(SRV);
  }

  lemma FinishFirst(ss: seq<System>, acts: seq<Action>) returns (ss': seq<System>, acts': seq<Action>)
    requires At(ss, acts, FirstAnswered())
    ensures At(ss', acts', FirstBound())
  {
    FirstGotPdu();
    FirstReturns();
    ss', acts' := RunSnoc(ss, acts, Deliver(CLT, BOUND));
    ss', acts' := RunSnoc(ss', acts', Return(CLT, 1));
    ss', acts' := RunSnoc(ss', acts', BindDone(CLT, 1));
  }

  // ---- the restart and the second bind ----

  /** Call 3 was made with the old nonce; then the server was restarted. */
  ghost function Restarted(): System {
    FirstBound().(
      clients := map[CLT := Waits(SRV, 4, map[2 := WAIT, 3 := WAIT], 1)],
      server := Server(SRV2, map[], map[]), past := {SRV}, requests := {BIND1, BIND2, OLD3},
      issued := map[ID1 := BIND1, ID2 := BIND2, ID3 := OLD3])
  }

  ghost function SecondAdmitted(): System {
    Restarted().(
      server := Server(SRV2, map[CLT := [RW.Entry(2, None)]], map[1 := Job(BIND2, Admitted)]),
      log := [ADMIT1, Admission(SRV2, BIND2)])
  }

  ghost function SecondAnswered(): System {
    SecondAdmitted().(
      server := Server(SRV2, map[CLT := [RW.Entry(2, Some(BOUND2))]], map[]),
      replies := {Envelope(CLT, BOUND), Envelope(CLT, BOUND2)}, execs := map[0 := BOUND, 1 := BOUND2])
  }

  ghost function SecondDelivered(): System {
    SecondAnswered().(clients := map[CLT := Waits(SRV, 4, map[2 := ANSWER2, 3 := WAIT], 2)])
  }

  ghost function SecondBound(): System {
    SecondAnswered().(
      clients := map[CLT := Waits(SRV2, 4, map[3 := WAIT], 2)],
      returned := map[ID1 := ANSWER1, ID2 := ANSWER2], bound := {ID1, ID2})
  }

  lemma SecondWindows()
    ensures RW.Classify([], 2).New? && RW.Check([], 2, 0) == [RW.Entry(2, None)]
    ensures RW.Store([RW.Entry(2, None)], 2, BOUND2) == [RW.Entry(2, Some(BOUND2))]
  {
  }

  lemma CallAndRestart(ss: seq<System>, acts: seq<Action>) returns (ss': seq<System>, acts': seq<Action>)
    requires At(ss, acts, FirstBound())
    ensures At(ss', acts', Restarted())
  {
    ss', acts' := RunSnoc(ss, acts, Call(CLT, 5, []));
    ss', acts' := RunSnoc(ss', acts', Transmit(CLT, 3));
    ss', acts' := RunSnoc(ss', acts', Restart(SRV2));
  }

  lemma UpToRestart() returns (ss: seq<System>, acts: seq<Action>)
    ensures At(ss, acts, Restarted())
  {
    ss, acts := SendBoth();
    ss, acts := AdmitFirst(ss, acts);
    ss, acts := AnswerFirst(ss, acts);
    ss, acts := FinishFirst(ss, acts);
    ss, acts := CallAndRestart(ss, acts);
  }

  lemma AdmitSecond(ss: seq<System>, acts: seq<Action>) returns (ss': seq<System>, acts': seq<Action>)
    requires At(ss, acts, Restarted())
    ensures At(ss', acts', SecondAdmitted())
  {
    SecondWindows();
    ss', acts' := RunSnoc(ss, acts, Dispatch(BIND2));
  }

  lemma AnswerSecond(ss: seq<System>, acts: seq<Action>) returns (ss': seq<System>, acts': seq<Action>)
    requires At(ss, acts, SecondAdmitted())
    ensures At(ss', acts', SecondAnswered())
  {
    SecondWindows();
    ss', acts' := RunSnoc(ss, acts, Execute(1, 0, Pack32(SRV2)));
    ss', acts' := RunSnoc(ss', acts', Record(1));
    ss', acts' := RunSnoc(ss', acts', Send(1));
  }

  lemma SecondGotPdu()
    ensures Enabled(SecondAnswered(), Deliver(CLT, BOUND2)) && DeliverStep(SecondAnswered(), CLT, BOUND2) == SecondDelivered()
  {
    var c := SecondAnswered().clients[CLT];
    ClientGotSecond(c);
    OneClient(c, GotPdu(c, BOUND2));
  }

  lemma ClientGotSecond(c: Client)
    requires c == Waits(SRV, 4, map[2 := WAIT, 3 := WAIT], 1)
    ensures GotPdu(c, BOUND2) == Waits(SRV, 4, map[2 := ANSWER2, 3 := WAIT], 2)
  {
    NextInOrder(1);
    assert map[2 := WAIT, 3 := WAIT][2 := ANSWER2] == map[2 := ANSWER2, 3 := WAIT];
  }

  lemma SecondReturns()
    ensures
      && Enabled(SecondDelivered(), Return(CLT, 2))
      && ReturnStep(SecondDelivered(), CLT, 2) == SecondReturned()
      && Enabled(SecondReturned(), BindDone(CLT, 2)) && BindDoneStep(SecondReturned(), CLT, 2) == SecondBound()
  {
    var c := SecondDelivered().clients[CLT];
    EndSecond(c);
    OneClient(c, EndCall(c, 2));
    ReturnedToo(ANSWER1, ANSWER2);
    SecondBinds();
  }

  ghost function SecondReturned(): System {
    SecondBound().(clients := map[CLT := Waits(SRV, 4, map[3 := WAIT], 2)], bound := {ID1})
  }

  lemma SecondBinds()
    ensures Enabled(SecondReturned(), BindDone(CLT, 2)) && BindDoneStep(SecondReturned(), CLT, 2) == SecondBound()
  {
    Pack32RoundTrip(SRV2);
  }

  lemma EndSecond(c: Client)
    requires c == Waits(SRV, 4, map[2 := ANSWER2, 3 := WAIT], 2)
    ensures EndCall(c, 2) == Waits(SRV, 4, map[3 := WAIT], 2)
  {
    assert map[2 := ANSWER2, 3 := WAIT] - {2} == map[3 := WAIT];
  }

  lemma FinishSecond(ss: seq<System>, acts: seq<Action>) returns (ss': seq<System>, acts': seq<Action>)
    requires At(ss, acts, SecondAnswered())
    ensures At(ss', acts', SecondBound())
  {
    SecondGotPdu();
    SecondReturns();
    ss', acts' := RunSnoc(ss, acts, Deliver(CLT, BOUND2));
    ss', acts' := RunSnoc(ss', acts', Return(CLT, 2));
    ss', acts' := RunSnoc(ss', acts', BindDone(CLT, 2));
  }

  // ---- the refused call, and the call that is lost ----

  /** Call 3 has been refused, and its caller knows. */
  ghost function Refused(): System {
    SecondBound().(
      clients := map[CLT := Waits(SRV2, 4, map[3 := ANSWER3], 3)],
      replies := {Envelope(CLT, BOUND), Envelope(CLT, BOUND2), Envelope(CLT, REFUSED3)})
  }

  /** Calls 4 and 5 were made with the new nonce, and 5 was admitted first. */
  ghost function FifthAdmitted(): System {
    Refused().(
      clients := map[CLT := Waits(SRV2, 6, map[3 := ANSWER3, 4 := WAIT, 5 := WAIT], 3)],
      server := Server(SRV2, map[CLT := [RW.Entry(5, None)]], map[2 := Job(NEW5, Admitted)]),
      requests := {BIND1, BIND2, OLD3, NEW5},
      issued := map[ID1 := BIND1, ID2 := BIND2, ID3 := OLD3, ID4 := NEW4, ID5 := NEW5],
      log := [ADMIT1, Admission(SRV2, BIND2), Admission(SRV2, NEW5)])
  }

  lemma LastWindows(m: Reply)
    ensures RW.Classify([RW.Entry(2, Some(m))], 5).New?
    ensures RW.Check([RW.Entry(2, Some(m))], 5, 3) == [RW.Entry(5, None)]
    ensures RW.Classify([RW.Entry(5, None)], 4).Forgotten?
  {
    var e, f := RW.Entry(2, Some(m)), RW.Entry(5, None);
    assert [e][1..] == [];
    assert RW.Find([e][1..], 5) == 0;
    assert RW.Admit([e][1..], 5) == [f];
    assert RW.Admit([e], 5) == [e, f];
    assert [e, f][1..] == [f];
    assert RW.Trim([f], 3) == [f];
    assert [f][1..] == [];
  }

  lemma RefusedGotPdu(c: Client)
    requires c == Waits(SRV2, 4, map[3 := WAIT], 2)
    ensures GotPdu(c, REFUSED3) == Waits(SRV2, 4, map[3 := ANSWER3], 3)
  {
    NextInOrder(2);
    assert map[3 := WAIT][3 := ANSWER3] == map[3 := ANSWER3];
  }

  lemma RefuseThird(ss: seq<System>, acts: seq<Action>) returns (ss': seq<System>, acts': seq<Action>)
    requires At(ss, acts, SecondBound())
    ensures At(ss', acts', Refused())
  {
    var c := SecondBound().clients[CLT];
    RefusedGotPdu(c);
    OneClient(c, GotPdu(c, REFUSED3));
    ss', acts' := RunSnoc(ss, acts, Dispatch(OLD3));
    ss', acts' := RunSnoc(ss', acts', Deliver(CLT, REFUSED3));
  }

  /** The same state before anything of call 5 reached the network. */
  ghost function BothCalled(): System {
    FifthAdmitted().(
      server := Refused().server, requests := Refused().requests, log := Refused().log)
  }

  lemma CallTwice(ss: seq<System>, acts: seq<Action>) returns (ss': seq<System>, acts': seq<Action>)
    requires At(ss, acts, Refused())
    ensures At(ss', acts', BothCalled())
  {
    ss', acts' := RunSnoc(ss, acts, Call(CLT, 5, []));
    ss', acts' := RunSnoc(ss', acts', Call(CLT, 5, []));
  }

  lemma AdmitFifth(ss: seq<System>, acts: seq<Action>) returns (ss': seq<System>, acts': seq<Action>)
    requires At(ss, acts, BothCalled())
    ensures At(ss', acts', FifthAdmitted())
  {
    LastWindows(BOUND2);
    ss', acts' := RunSnoc(ss, acts, Transmit(CLT, 5));
    ss', acts' := RunSnoc(ss', acts', Dispatch(NEW5));
  }

  /** Every caller that returned had an answer, and still the request of a waiting call with
      the right nonce would be answered FORGOTTEN. */
  lemma ARebindForgetsALiveCall() returns (ss: seq<System>, acts: seq<Action>)
    ensures Run(ss, acts)
    ensures
      var s := ss[|acts|];
      && LosesCall(s, ID4) && s.issued[ID4].h.srvNonce == s.server.nonce
      && forall id :: id in s.returned ==> s.returned[id].done
  {
    LastWindows(BOUND2);
    ss, acts := UpToRestart();
    ss, acts := AdmitSecond(ss, acts);
    ss, acts := AnswerSecond(ss, acts);
    ss, acts := FinishSecond(ss, acts);
    ss, acts := RefuseThird(ss, acts);
    ss, acts := CallTwice(ss, acts);
    ss, acts := AdmitFifth(ss, acts);
  }
}
