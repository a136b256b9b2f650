/** When does a sender sleep for good?  Exactly when closeconn finds a thread waiting for its
    message to be complete: it sets the dead flag without a signal, and no callback is left
    to send one.  Every sender queued behind that thread sleeps with it. */
module LostWakeups {
  import opened Basics
  import opened Channel
  import opened Connections
  import opened SenderWakeups
  import PollMgr
  import Wire

  /** t sleeps although what it waits for has come, and nobody is about to signal it. */
  ghost predicate Stranded(s: System, t: nat) {
    At(s, t) && t in s.asleep && s.tasks[t].Finishing? && MayFinish(OutOf(s, t)) && !SignalDue(s, FdOf(s, t))
  }

  /** A closeconn that sets the flag finds nobody asleep for completion. */
  ghost predicate CloseSpares(s: System, a: Action) {
    a.CloseMarks? && Guard(s, a) && !OutOf(s, a.t).dead ==> FinishSleepers(s, FdOf(s, a.t)) == {}
  }

  lemma StrandedIsDead(s: System, t: nat)
    requires SleepInv(s) && Stranded(s, t)
    ensures OutOf(s, t).dead
  {
    assert t in FinishSleepers(s, FdOf(s, t));
    assert FinishOk(s, FdOf(s, t));
  }

  // ---- one step ----

  /** Who sleeps for completion after a step did so before, or found its message incomplete. */
  lemma SleptBefore(s: System, a: Action, t: nat)
    requires Inv(s) && SleepInv(s) && Enabled(s, a) && At(Step(s, a), t)
    requires t in Step(s, a).asleep && Step(s, a).tasks[t].Finishing?
    ensures MayFinish(OutOf(Step(s, a), t)) ==>
              At(s, t) && t in s.asleep && Step(s, a).tasks[t] == s.tasks[t]
  {
    assert TaskOk(s, t) && SleepOk(s, t);
    if Mover(a) != Some(t) {
      OtherTask(s, a, t);
      NoNewSleeper(s, a, t);
    }
  }

  /** t waits for completion. */
  predicate Sleeps(s: System, t: nat) {
    At(s, t) && t in s.asleep && s.tasks[t].Finishing?
  }

  /** A sleeper makes no step, and nobody else has or takes its turn. */
  lemma SleeperAlone(s: System, a: Action, t: nat)
    requires SleepInv(s) && Enabled(s, a) && Sleeps(s, t)
    ensures Mover(a) != Some(t)
    ensures a.SendStart? || a.SendFinish? || a.SendGivesUp? ==> Touched(s, a) != Some(FdOf(s, t))
  {
    assert TurnOk(s, FdOf(s, t)) && t in Holders(s, FdOf(s, t));
    if a.SendFinish? || a.SendGivesUp? {
      assert a.t in Holders(s, FdOf(s, a.t));
    }
  }

  lemma SleeperStays(s: System, a: Action, t: nat)
    requires Enabled(s, a) && Sleeps(s, t) && !a.Returns? && a != Wakes(t)
    ensures t in Step(s, a).asleep
  {
  }

  /** Short of a callback and a spurious wakeup, a sleeper sleeps on, and its message changes
      only when closeconn sets the dead flag. */
  lemma SleeperUntouched(s: System, a: Action, t: nat)
    requires Inv(s) && SleepInv(s) && Enabled(s, a) && Sleeps(s, t) && !CallbackStep(a) && a != Wakes(t)
    ensures Sleeps(Step(s, a), t) && Step(s, a).tasks[t] == s.tasks[t]
    ensures
      || OutOf(Step(s, a), t) == OutOf(s, t)
      || (a.CloseMarks? && FdOf(s, a.t) == FdOf(s, t) && !OutOf(s, t).dead && OutOf(Step(s, a), t).dead)
  {
    SleeperAlone(s, a, t);
    OtherTask(s, a, t);
    SleeperStays(s, a, t);
    if Touched(s, a) != Some(FdOf(s, t)) {
      OtherConn(s, a, FdOf(s, t));
    } else {
      OtherOut(s, a, FdOf(s, t));
    }
  }

  lemma SleeperInCallback(s: System, a: Action, t: nat)
    requires StageOk(s) && Enabled(s, a) && Sleeps(s, t) && CallbackStep(a)
    ensures At(Step(s, a), t) && Step(s, a).tasks[t] == s.tasks[t]
    ensures t in Step(s, a).asleep <==> !(a.Returns? && s.stage.signals && s.poll.pc.fd == FdOf(s, t))
    ensures MayFinish(OutOf(Step(s, a), t)) && t in Step(s, a).asleep && !SignalDue(Step(s, a), FdOf(s, t)) ==>
              MayFinish(OutOf(s, t)) && !SignalDue(s, FdOf(s, t))
    ensures OutOf(s, t).dead && !SignalDue(s, FdOf(s, t)) ==>
              OutOf(Step(s, a), t).dead && !SignalDue(Step(s, a), FdOf(s, t))
  {
  }

  /** Only a closeconn that finds a sleeper strands one. */
  lemma StrandedBefore(s: System, a: Action, t: nat)
    requires Inv(s) && SleepInv(s) && Enabled(s, a) && Stranded(Step(s, a), t)
    ensures Stranded(s, t) || !CloseSpares(s, a)
  {
    SleptBefore(s, a, t);
    if CallbackStep(a) {
      SleeperInCallback(s, a, t);
    } else {
      if a != Wakes(t) {
        SleeperUntouched(s, a, t);
      }
      SameSignal(s, a, FdOf(s, t));
      if a.CloseMarks? && FdOf(s, a.t) == FdOf(s, t) && !OutOf(s, t).dead {
        assert t in FinishSleepers(s, FdOf(s, t));
      }
    }
  }

  /** A closeconn that finds a sleeper strands it at once. */
  lemma CloseStrands(s: System, a: Action) returns (t: nat)
    requires Inv(s) && SleepInv(s) && Enabled(s, a) && !CloseSpares(s, a)
    ensures Stranded(Step(s, a), t)
  {
    t :| t in FinishSleepers(s, FdOf(s, a.t));
    SleeperUntouched(s, a, t);
    assert ConnOk(s, FdOf(s, t));
  }

  /** Nothing but a spurious wakeup helps a stranded thread. */
  lemma StrandedStays(s: System, a: Action, t: nat)
    requires Inv(s) && SleepInv(s) && Enabled(s, a) && Stranded(s, t) && a != Wakes(t)
    ensures Stranded(Step(s, a), t) && Step(s, a).tasks[t] == s.tasks[t]
  {
    StrandedIsDead(s, t);
    if CallbackStep(a) {
      SleeperInCallback(s, a, t);
    } else {
      SleeperUntouched(s, a, t);
      SameSignal(s, a, FdOf(s, t));
    }
  }

  /** Those queued behind it sleep on as well. */
  lemma QueueStays(s: System, a: Action, t: nat, u: nat)
    requires Inv(s) && SleepInv(s) && Enabled(s, a) && Stranded(s, t) && a != Wakes(u)
    requires u in TurnSleepers(s, FdOf(s, t))
    ensures u in TurnSleepers(Step(s, a), FdOf(s, t))
  {
    SleeperAlone(s, a, t);
    assert SleepOk(s, u);
    TurnSleeperStays(s, a, u);
  }

  lemma TurnSleeperStays(s: System, a: Action, u: nat)
    requires Enabled(s, a) && At(s, u) && u in TurnSleepers(s, FdOf(s, u)) && a != Wakes(u)
    requires a.SendStart? || a.SendFinish? || a.SendGivesUp? ==> Touched(s, a) != Some(FdOf(s, u))
    ensures u in TurnSleepers(Step(s, a), FdOf(s, u))
  {
  }

  // ---- whole runs ----

  ghost predicate NobodyStranded(s: System) {
    forall t: nat :: !Stranded(s, t)
  }

  lemma {:induction false} SparedRun(ss: seq<System>, acts: seq<Action>, i: nat)
    requires Run(ss, acts) && i < |ss| && forall k :: 0 <= k < i ==> CloseSpares(ss[k], acts[k])
    ensures NobodyStranded(ss[i])
  {
    if i > 0 {
      var j := i - 1;
      SparedRun(ss, acts, j);
      RunKeeps(ss, acts, j);
      RunSleepInv(ss, acts, j);
      RunNext(ss, acts, j);
      forall t: nat ensures !Stranded(ss[i], t) {
        if Stranded(ss[i], t) {
          StrandedBefore(ss[j], acts[j], t);
        }
      }
    }
  }

  lemma SparedAt(ss: seq<System>, acts: seq<Action>, k: nat)
    requires Run(ss, acts) && k < |acts| && NobodyStranded(ss[k + 1])
    ensures CloseSpares(ss[k], acts[k])
  {
    RunKeeps(ss, acts, k);
    RunSleepInv(ss, acts, k);
    RunNext(ss, acts, k);
    if !CloseSpares(ss[k], acts[k]) {
      var t := CloseStrands(ss[k], acts[k]);
    }
  }

  /** In every run: no sender is ever left asleep, with nobody about to signal it, beside a
      message that is complete or failed, if and only if every closeconn that sets the dead
      flag finds no sender asleep for completion. */
  lemma NobodyStrandedIff(ss: seq<System>, acts: seq<Action>)
    requires Run(ss, acts)
    ensures (forall i :: 0 <= i < |ss| ==> NobodyStranded(ss[i])) <==>
            (forall k :: 0 <= k < |acts| ==> CloseSpares(ss[k], acts[k]))
  {
    if forall k :: 0 <= k < |acts| ==> CloseSpares(ss[k], acts[k]) {
      forall i | 0 <= i < |ss| ensures NobodyStranded(ss[i]) {
        SparedRun(ss, acts, i);
      }
    }
    if forall i :: 0 <= i < |ss| ==> NobodyStranded(ss[i]) {
      forall k | 0 <= k < |acts| ensures CloseSpares(ss[k], acts[k]) {
        assert NobodyStranded(ss[k + 1]);
        SparedAt(ss, acts, k);
      }
    }
  }

  /** In such a run every sleeper is seen to: its message is still being written or a signal is
      due; and before one that waits for its turn there is a thread that is awake or of which
      the same holds. */
  lemma SleepersAreSeenTo(ss: seq<System>, acts: seq<Action>, i: nat, u: nat) returns (t: nat)
    requires Run(ss, acts) && i < |ss| && u in ss[i].asleep
    requires forall k :: 0 <= k < i ==> CloseSpares(ss[k], acts[k])
    ensures At(ss[i], u) && t in Holders(ss[i], FdOf(ss[i], u))
    ensures ss[i].tasks[u].Finishing? ==> t == u
    ensures t !in ss[i].asleep || !MayFinish(OutOf(ss[i], u)) || SignalDue(ss[i], FdOf(ss[i], u))
  {
    var s := ss[i];
    RunSleepInv(ss, acts, i);
    SparedRun(ss, acts, i);
    assert SleepOk(s, u) && TurnOk(s, FdOf(s, u));
    assert s.tasks[u].Finishing? ==> u in Holders(s, FdOf(s, u));
    t :| t in Holders(s, FdOf(s, u)) && (s.tasks[u].Finishing? ==> t == u);
    assert SleepOk(s, t) && !Stranded(s, t);
  }

  /** Once stranded, always stranded, with the whole queue behind it: whatever the other
      threads, the poll thread and the network do, short of spurious wakeups. */
  lemma {:induction false} StrandedForGood(ss: seq<System>, acts: seq<Action>, i: nat, j: nat, t: nat)
    requires Run(ss, acts) && i <= j < |ss| && Stranded(ss[i], t) && forall k :: i <= k < j ==> !acts[k].Wakes?
    ensures Stranded(ss[j], t) && ss[j].tasks[t] == ss[i].tasks[t]
    ensures TurnSleepers(ss[i], FdOf(ss[i], t)) <= TurnSleepers(ss[j], FdOf(ss[i], t))
    decreases j
  {
    if i < j {
      var k := j - 1;
      StrandedForGood(ss, acts, i, k, t);
      RunKeeps(ss, acts, k);
      RunSleepInv(ss, acts, k);
      RunNext(ss, acts, k);
      StrandedStays(ss[k], acts[k], t);
      forall u | u in TurnSleepers(ss[i], FdOf(ss[i], t)) ensures u in TurnSleepers(ss[j], FdOf(ss[i], t)) {
        QueueStays(ss[k], acts[k], t, u);
      }
    }
  }

  // ---- a run in which it happens ----

  const FD: nat := 5
  const MSG: Bytes := seq(24, _ => 0)

  lemma RunSnoc(ss: seq<System>, acts: seq<Action>, a: Action) returns (ss': seq<System>, acts': seq<Action>)
    requires Run(ss, acts) && Enabled(ss[|acts|], a)
    ensures Run(ss', acts') && acts' == acts + [a] && ss'[|acts'|] == Step(ss[|acts|], a)
  {
    ss', acts' := ss + [Step(ss[|acts|], a)], acts + [a];
    forall i | 0 <= i < |acts'| ensures Next(ss'[i], acts'[i], ss'[i + 1]) {
      if i < |acts| {
        RunNext(ss, acts, i);
      }
    }
  }

  ghost function World(poll: PollMgr.State, c: Conn, tasks: map<nat, Task>, asleep: set<nat>): System {
    System(poll, map[FD := c], tasks, Outside, asleep)
  }

  ghost function Watching(wr: set<nat>, pipe: nat, dead: set<nat>): PollMgr.State {
    PollMgr.State(PollMgr.Tables({FD}, wr, {FD}, false, pipe), PollMgr.Top, map[], map[], dead, {})
  }

  ghost function Writing(o: Out, waiters: nat): Conn {
    Conn(o, None, None, waiters)
  }

  ghost const IDLE := Out(false, None, 0, 0)

  /** Four of 24 bytes are written. */
  ghost const PARTLY := Out(false, Some(Wire.SetLength(MSG)), 4, 24)

  lemma OpenIt() returns (ss: seq<System>, acts: seq<Action>)
    ensures Run(ss, acts) && ss[|acts|] == World(Watching({}, 1, {}), Writing(IDLE, 0), map[], {})
  {
    ss, acts := [Connections.Init()], [];
    ss, acts := RunSnoc(ss, acts, Open(1, FD));
    ss, acts := RunSnoc(ss, acts, Built(1));
  }

  lemma SendPart(ss: seq<System>, acts: seq<Action>) returns (ss': seq<System>, acts': seq<Action>)
    requires Run(ss, acts) && ss[|acts|] == World(Watching({}, 1, {}), Writing(IDLE, 0), map[], {})
    ensures Run(ss', acts')
    ensures ss'[|acts'|] == World(Watching({FD}, 2, {}), Writing(PARTLY, 0), map[2 := Finishing(FD)], {2})
  {
    ss', acts' := RunSnoc(ss, acts, CallSend(2, FD, MSG));
    ss', acts' := RunSnoc(ss', acts', SendStart(2, Wrote(4)));
    ss', acts' := RunSnoc(ss', acts', SendAdds(2));
  }

  lemma QueueBehind(ss: seq<System>, acts: seq<Action>) returns (ss': seq<System>, acts': seq<Action>)
    requires Run(ss, acts)
    requires ss[|acts|] == World(Watching({FD}, 2, {}), Writing(PARTLY, 0), map[2 := Finishing(FD)], {2})
    ensures Run(ss', acts')
    ensures ss'[|acts'|] ==
      World(Watching({FD}, 2, {}), Writing(PARTLY, 1), map[2 := Finishing(FD), 3 := Sending(FD, MSG, true)], {2, 3})
  {
    ss', acts' := RunSnoc(ss, acts, CallSend(3, FD, MSG));
    ss', acts' := RunSnoc(ss', acts', SendSleeps(3));
  }

  /** Thread 2 has written four bytes of its message and sleeps; thread 3 sleeps behind it;
      thread 1, which made the connection, closes it. */
  lemma CloseLosesSenders() returns (ss: seq<System>, acts: seq<Action>)
    ensures Run(ss, acts) && Stranded(ss[|acts|], 2) && 3 in TurnSleepers(ss[|acts|], FD)
  {
    ss, acts := OpenIt();
    ss, acts := SendPart(ss, acts);
    ss, acts := QueueBehind(ss, acts);
    ss, acts := RunSnoc(ss, acts, CallClose(1, FD));
    ss, acts := RunSnoc(ss, acts, CloseMarks(1));
  }
}
