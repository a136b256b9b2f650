/** The two condition variables of send.  Waiting for a turn never goes wrong.  Waiting for
    completion does in one case: closeconn sets the dead flag and signals nobody. */
module SenderWakeups {
  import opened Basics
  import opened Channel
  import opened Connections
  import Framing

  /** The thread has its turn on fd: `wpdu_.buf` is its message. */
  predicate HoldsTurn(k: Task, fd: nat) {
    && k.fd == fd
    && (k.Adding? || k.Finishing? || k.Removed? || ((k.MustRemove? || k.Removing?) && k.sends))
  }

  function Holders(s: System, fd: nat): set<nat> {
    set t | t in s.tasks && HoldsTurn(s.tasks[t], fd)
  }

  /** The threads that `waiters_` counts. */
  function Counted(s: System, fd: nat): set<nat> {
    set t | t in s.tasks && WaitsForTurn(s.tasks[t], fd) && s.tasks[t].counted
  }

  /** The poll thread holds fd's lock and will signal `send_complete_` before it gives it up. */
  predicate SignalDue(s: System, fd: nat) {
    s.poll.pc.Running? && s.poll.pc.fd == fd && (s.stage.Failing? || s.stage.Dying? || (s.stage.Leaving? && s.stage.signals))
  }

  // ---- invariants ----

  /** The buffer is in use exactly while one thread has its turn. */
  ghost predicate TurnOk(s: System, fd: nat) {
    fd in s.conns ==>
      && (s.conns[fd].out.buf.Some? <==> Holders(s, fd) != {})
      && (forall t, u :: t in Holders(s, fd) && u in Holders(s, fd) ==> t == u)
  }

  ghost predicate WaitersOk(s: System, fd: nat) {
    fd in s.conns ==> s.conns[fd].waiters == |Counted(s, fd)|
  }

  /** A thread sleeps only in one of the two waits; for its turn only while the buffer is in
      use; and when it begins to wait for completion there is something left to write. */
  predicate SleepOk(s: System, t: nat) {
    && (t in s.asleep ==>
         && At(s, t) && (s.tasks[t].Finishing? || (s.tasks[t].Sending? && s.tasks[t].counted))
         && (s.tasks[t].Sending? ==> OutOf(s, t).buf.Some?))
    && (t in s.tasks && s.tasks[t].Adding? ==> At(s, t) && !MayFinish(OutOf(s, t)))
  }

  /** A thread that sleeps although its message is complete or failed will be signalled, or
      its connection is dead. */
  ghost predicate FinishOk(s: System, fd: nat) {
    fd in s.conns && FinishSleepers(s, fd) != {} && MayFinish(s.conns[fd].out) ==>
      SignalDue(s, fd) || s.conns[fd].out.dead
  }

  ghost predicate SleepInv(s: System) {
    && (forall fd: nat :: TurnOk(s, fd) && WaitersOk(s, fd) && FinishOk(s, fd))
    && (forall t: nat :: SleepOk(s, t))
  }

  // ---- what a step changes ----

  /** The thread whose task a step changes, if any. */
  function Mover(a: Action): Option<nat> {
    if CallingStep(a) || a.Open? || a.CallSend? || a.CallClose? || (InsideStep(a) && !a.Wakes?) then Some(a.t) else None
  }

  lemma OtherTask(s: System, a: Action, u: nat)
    requires Enabled(s, a) && Mover(a) != Some(u)
    ensures u in Step(s, a).tasks <==> u in s.tasks
    ensures u in s.tasks ==> Step(s, a).tasks[u] == s.tasks[u]
  {
  }

  /** The descriptor whose connection a step changes, if any. */
  function Touched(s: System, a: Action): Option<nat>
    requires Guard(s, a)
  {
    if a.Open? || a.Destroy? then Some(a.fd)
    else if CallingStep(a) || (InsideStep(a) && !a.Wakes?) then Some(s.tasks[a.t].fd)
    else if CallbackStep(a) then Some(s.poll.pc.fd)
    else None
  }

  lemma OtherConn(s: System, a: Action, fd: nat)
    requires Enabled(s, a) && Touched(s, a) != Some(fd)
    ensures fd in Step(s, a).conns <==> fd in s.conns
    ensures fd in s.conns ==> Step(s, a).conns[fd] == s.conns[fd]
  {
  }

  // ---- turns ----

  /** The mover's own task, before and after: only these steps begin or end a turn. */
  lemma MoverTurn(s: System, a: Action, t: nat, fd: nat)
    requires Enabled(s, a) && Mover(a) == Some(t)
    requires !a.SendStart? && !a.SendFinish? && !a.SendGivesUp?
    ensures t in Holders(Step(s, a), fd) <==> t in Holders(s, fd)
  {
  }

  lemma SameHolders(s: System, a: Action, fd: nat)
    requires Enabled(s, a) && !a.SendStart? && !a.SendFinish? && !a.SendGivesUp?
    ensures Holders(Step(s, a), fd) == Holders(s, fd)
  {
    forall u ensures u in Holders(Step(s, a), fd) <==> u in Holders(s, fd) {
      if Mover(a) == Some(u) {
        MoverTurn(s, a, u, fd);
      } else {
        OtherTask(s, a, u);
      }
    }
  }

  lemma SameBuffer(s: System, a: Action, fd: nat)
    requires Enabled(s, a) && !a.SendStart? && !a.SendFinish? && !a.SendGivesUp?
    requires fd in s.conns && fd in Step(s, a).conns
    ensures Step(s, a).conns[fd].out.buf.Some? <==> s.conns[fd].out.buf.Some?
  {
  }

  lemma TurnStep(s: System, a: Action, fd: nat)
    requires Inv(s) && TurnOk(s, fd) && Enabled(s, a)
    ensures TurnOk(Step(s, a), fd)
  {
    var s' := Step(s, a);
    if a.SendStart? || a.SendFinish? || a.SendGivesUp? {
      TurnChanges(s, a, fd);
    } else {
      SameHolders(s, a, fd);
      if fd in s.conns && fd in s'.conns {
        SameBuffer(s, a, fd);
      } else if fd in s'.conns {
        NobodyInside(s, fd);
      }
    }
  }

  lemma NobodyInside(s: System, fd: nat)
    requires Inv(s) && fd !in s.conns
    ensures forall t :: t in s.tasks ==> s.tasks[t].fd != fd
  {
    forall t | t in s.tasks ensures s.tasks[t].fd != fd {
      assert TaskOk(s, t);
    }
  }

  lemma TurnChanges(s: System, a: Action, fd: nat)
    requires TurnOk(s, fd) && Enabled(s, a) && (a.SendStart? || a.SendFinish? || a.SendGivesUp?)
    ensures TurnOk(Step(s, a), fd)
  {
    var s' := Step(s, a);
    forall u | u != a.t ensures u in Holders(s', fd) <==> u in Holders(s, fd) {
      OtherTask(s, a, u);
    }
    if fd == s.tasks[a.t].fd {
      if !a.SendStart? {
        assert a.t in Holders(s, fd);
      }
      assert a.t in Holders(s', fd) <==> s'.conns[fd].out.buf.Some?;
    } else {
      OtherConn(s, a, fd);
      assert a.t !in Holders(s', fd) && a.t !in Holders(s, fd);
    }
  }

  // ---- the counter of waiters ----

  lemma CountedStep(s: System, a: Action, fd: nat)
    requires Enabled(s, a)
    requires !a.SendSleeps? && !a.SendRefused? && !a.SendStart?
    ensures Counted(Step(s, a), fd) == Counted(s, fd)
  {
    forall u ensures u in Counted(Step(s, a), fd) <==> u in Counted(s, fd) {
      if Mover(a) != Some(u) {
        OtherTask(s, a, u);
      } else {
        MoverCounted(s, a, u, fd);
      }
    }
  }

  lemma MoverCounted(s: System, a: Action, t: nat, fd: nat)
    requires Enabled(s, a) && Mover(a) == Some(t)
    requires !a.SendSleeps? && !a.SendRefused? && !a.SendStart?
    ensures t in Counted(Step(s, a), fd) <==> t in Counted(s, fd)
  {
  }

  lemma WaitersSame(s: System, a: Action, fd: nat)
    requires Enabled(s, a) && !a.SendSleeps? && !a.SendRefused? && !a.SendStart?
    requires fd in s.conns && fd in Step(s, a).conns
    ensures Step(s, a).conns[fd].waiters == s.conns[fd].waiters
  {
  }

  /** A thread begins to wait for its turn. */
  lemma WaitersUp(s: System, t: nat, fd: nat)
    requires WaitersOk(s, fd) && Enabled(s, SendSleeps(t))
    ensures WaitersOk(Step(s, SendSleeps(t)), fd)
  {
    var s' := Step(s, SendSleeps(t));
    forall u | u != t ensures u in Counted(s', fd) <==> u in Counted(s, fd) {
      OtherTask(s, SendSleeps(t), u);
    }
    if fd == s.tasks[t].fd && !s.tasks[t].counted {
      assert t !in Counted(s, fd);
      assert Counted(s', fd) == Counted(s, fd) + {t};
    } else {
      assert t in Counted(s', fd) <==> t in Counted(s, fd);
      assert Counted(s', fd) == Counted(s, fd);
    }
  }

  /** A thread stops waiting for its turn. */
  lemma WaitersDown(s: System, a: Action, fd: nat)
    requires WaitersOk(s, fd) && Enabled(s, a) && (a.SendRefused? || a.SendStart?)
    ensures WaitersOk(Step(s, a), fd)
  {
    var s', t := Step(s, a), a.t;
    forall u | u != t ensures u in Counted(s', fd) <==> u in Counted(s, fd) {
      OtherTask(s, a, u);
    }
    assert t !in Counted(s', fd);
    assert Counted(s', fd) == Counted(s, fd) - {t};
    if fd == s.tasks[t].fd {
      assert s'.conns[fd].waiters == Uncounted(s, t).waiters;
    } else {
      OtherConn(s, a, fd);
      assert Counted(s', fd) == Counted(s, fd);
    }
  }

  lemma WaitersStep(s: System, a: Action, fd: nat)
    requires Inv(s) && WaitersOk(s, fd) && Enabled(s, a)
    ensures WaitersOk(Step(s, a), fd)
  {
    var s' := Step(s, a);
    if a.SendSleeps? {
      WaitersUp(s, a.t, fd);
    } else if a.SendRefused? || a.SendStart? {
      WaitersDown(s, a, fd);
    } else {
      CountedStep(s, a, fd);
      if fd in s.conns && fd in s'.conns {
        WaitersSame(s, a, fd);
      } else if fd in s'.conns {
        NobodyInside(s, fd);
        assert Counted(s, fd) == {};
      }
    }
  }

  // ---- who sleeps ----

  /** Giving up a turn wakes every thread that waits for one: all of them are counted. */
  lemma BroadcastWakes(s: System, t: nat, u: nat)
    requires At(s, t) && WaitersOk(s, FdOf(s, t)) && SleepOk(s, u)
    requires u in s.asleep && u in s.tasks && WaitsForTurn(s.tasks[u], FdOf(s, t))
    ensures u !in Broadcast(s, FdOf(s, t))
  {
    assert u in Counted(s, FdOf(s, t));
    assert u in TurnSleepers(s, FdOf(s, t));
  }

  /** The mover's own place after its step. */
  lemma MoverSleep(s: System, a: Action, t: nat)
    requires SleepOk(s, t) && Enabled(s, a) && Mover(a) == Some(t)
    ensures SleepOk(Step(s, a), t)
  {
  }

  /** Steps that leave other connections' buffers alone. */
  lemma OtherSleep(s: System, a: Action, u: nat)
    requires SleepOk(s, u) && Enabled(s, a) && Mover(a) != Some(u)
    requires u in s.tasks ==> Touched(s, a) != Some(s.tasks[u].fd)
    ensures SleepOk(Step(s, a), u)
  {
    OtherTask(s, a, u);
    NoNewSleeper(s, a, u);
    if u in s.tasks {
      OtherConn(s, a, s.tasks[u].fd);
    }
  }

  lemma NoNewSleeper(s: System, a: Action, u: nat)
    requires Enabled(s, a) && Mover(a) != Some(u)
    ensures u in Step(s, a).asleep ==> u in s.asleep
  {
  }

  lemma CallbackSleep(s: System, a: Action, u: nat)
    requires SleepOk(s, u) && TaskOk(s, u) && StageOk(s) && Enabled(s, a) && CallbackStep(a)
    ensures SleepOk(Step(s, a), u)
  {
  }

  /** Another thread's step on u's connection. */
  lemma ThreadSleep(s: System, a: Action, t: nat, u: nat)
    requires SleepOk(s, u) && TaskOk(s, u) && Enabled(s, a) && Mover(a) == Some(t) && u != t && u in s.tasks
    requires CallingStep(a) || InsideStep(a)
    requires s.tasks[t].fd == s.tasks[u].fd && TurnOk(s, s.tasks[u].fd) && WaitersOk(s, s.tasks[u].fd)
    ensures SleepOk(Step(s, a), u)
  {
    OtherTask(s, a, u);
    NoNewSleeper(s, a, u);
    if a.SendFinish? || a.SendGivesUp? {
      if u in s.asleep && s.tasks[u].Sending? {
        BroadcastWakes(s, t, u);
      }
    }
  }

  lemma SleepStep(s: System, a: Action, u: nat)
    requires Inv(s) && SleepInv(s) && Enabled(s, a)
    ensures SleepOk(Step(s, a), u)
  {
    assert SleepOk(s, u) && TaskOk(s, u);
    if Mover(a) == Some(u) {
      MoverSleep(s, a, u);
    } else if u !in s.tasks || Touched(s, a) != Some(s.tasks[u].fd) {
      OtherSleep(s, a, u);
    } else if CallbackStep(a) {
      CallbackSleep(s, a, u);
    } else if a.Open? || a.Destroy? {
      assert false;
    } else {
      assert TurnOk(s, s.tasks[u].fd) && WaitersOk(s, s.tasks[u].fd);
      ThreadSleep(s, a, a.t, u);
    }
  }

  // ---- the wait for completion ----

  /** No thread newly asleep for completion, and nothing about the message changed. */
  lemma FinishFrame(s: System, s': System, fd: nat)
    requires FinishOk(s, fd) && fd in s.conns && fd in s'.conns
    requires FinishSleepers(s', fd) <= FinishSleepers(s, fd)
    requires MayFinish(s'.conns[fd].out) ==> MayFinish(s.conns[fd].out) || s'.conns[fd].out.dead
    requires s.conns[fd].out.dead ==> s'.conns[fd].out.dead
    requires SignalDue(s, fd) ==> SignalDue(s', fd) || FinishSleepers(s', fd) == {}
    ensures FinishOk(s', fd)
  {
  }

  lemma SameSignal(s: System, a: Action, fd: nat)
    requires Enabled(s, a) && !CallbackStep(a)
    ensures SignalDue(Step(s, a), fd) <==> SignalDue(s, fd)
  {
  }

  lemma CallbackFinish(s: System, a: Action, fd: nat)
    requires FinishOk(s, fd) && StageOk(s) && Enabled(s, a) && CallbackStep(a)
    ensures FinishOk(Step(s, a), fd)
  {
    CallbackSleepers(s, a, fd);
    if fd != s.poll.pc.fd {
      OtherConn(s, a, fd);
    }
  }

  lemma CallbackSleepers(s: System, a: Action, fd: nat)
    requires Enabled(s, a) && CallbackStep(a)
    ensures
      FinishSleepers(Step(s, a), fd) ==
        if a.Returns? && s.stage.signals && fd == s.poll.pc.fd then {} else FinishSleepers(s, fd)
  {
  }

  /** Whoever sleeps for completion has the turn. */
  lemma SleepersHold(s: System, fd: nat)
    ensures FinishSleepers(s, fd) <= Holders(s, fd)
  {
  }

  /** Steps that begin or end a turn. */
  lemma TurnFinish(s: System, a: Action, fd: nat)
    requires Enabled(s, a) && (a.SendStart? || a.SendFinish? || a.SendGivesUp?)
    requires TurnOk(s, fd) && TurnOk(Step(s, a), fd) && FinishOk(s, fd)
    ensures FinishOk(Step(s, a), fd)
  {
    var s' := Step(s, a);
    SleepersHold(s', fd);
    if fd == s.tasks[a.t].fd {
      assert FinishSleepers(s', fd) == {};
    } else if fd in s.conns {
      OtherConn(s, a, fd);
      FewerSleepers(s, a, fd);
      SameSignal(s, a, fd);
      FinishFrame(s, s', fd);
    }
  }

  lemma FewerSleepers(s: System, a: Action, fd: nat)
    requires Enabled(s, a) && !a.SendAdds? && !a.FinishSleeps?
    ensures FinishSleepers(Step(s, a), fd) <= FinishSleepers(s, fd)
  {
  }

  /** A thread that goes to sleep finds its message incomplete. */
  lemma SleeperFinish(s: System, a: Action, fd: nat)
    requires Enabled(s, a) && (a.SendAdds? || a.FinishSleeps?)
    requires FinishOk(s, fd) && SleepOk(s, a.t)
    ensures FinishOk(Step(s, a), fd)
  {
    var s' := Step(s, a);
    assert !MayFinish(OutOf(s, a.t));
    SameSignal(s, a, fd);
    if fd != s.tasks[a.t].fd && fd in s.conns {
      OtherConn(s, a, fd);
      forall u | u in FinishSleepers(s', fd) ensures u in FinishSleepers(s, fd) {
      }
      FinishFrame(s, s', fd);
    }
  }

  lemma FinishStep(s: System, a: Action, fd: nat)
    requires Inv(s) && SleepInv(s) && Enabled(s, a) && TurnOk(Step(s, a), fd)
    ensures FinishOk(Step(s, a), fd)
  {
    var s' := Step(s, a);
    assert TurnOk(s, fd) && FinishOk(s, fd);
    assert Mover(a).Some? ==> SleepOk(s, a.t);
    if CallbackStep(a) {
      CallbackFinish(s, a, fd);
    } else if a.SendStart? || a.SendFinish? || a.SendGivesUp? {
      TurnFinish(s, a, fd);
    } else if a.SendAdds? || a.FinishSleeps? {
      SleeperFinish(s, a, fd);
    } else if fd in s'.conns {
      FewerSleepers(s, a, fd);
      SameSignal(s, a, fd);
      if fd in s.conns {
        OtherOut(s, a, fd);
        FinishFrame(s, s', fd);
      } else {
        NobodyInside(s, fd);
      }
    }
  }

  /** The rest leaves the counters alone, but for a dead flag. */
  lemma OtherOut(s: System, a: Action, fd: nat)
    requires Enabled(s, a) && fd in s.conns && fd in Step(s, a).conns
    requires !CallbackStep(a) && !a.SendStart? && !a.SendFinish? && !a.SendGivesUp?
    ensures
      var o, o' := s.conns[fd].out, Step(s, a).conns[fd].out;
      o' == o || (o' == o.(dead := true) && a.CloseMarks?)
  {
  }

  lemma NextSleepInv(s: System, a: Action, s': System)
    requires Inv(s) && SleepInv(s) && Next(s, a, s')
    ensures SleepInv(s')
  {
    forall fd: nat ensures TurnOk(s', fd) && WaitersOk(s', fd) && FinishOk(s', fd) {
      assert TurnOk(s, fd) && WaitersOk(s, fd);
      TurnStep(s, a, fd);
      WaitersStep(s, a, fd);
      FinishStep(s, a, fd);
    }
    forall t: nat ensures SleepOk(s', t) {
      SleepStep(s, a, t);
    }
  }

  lemma {:induction false} RunSleepInv(ss: seq<System>, acts: seq<Action>, i: nat)
    requires Run(ss, acts) && i < |ss|
    ensures SleepInv(ss[i])
  {
    if i > 0 {
      var j := i - 1;
      RunSleepInv(ss, acts, j);
      RunKeeps(ss, acts, j);
      RunNext(ss, acts, j);
      NextSleepInv(ss[j], acts[j], ss[j + 1]);
    }
  }
}
