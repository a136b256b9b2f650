/** The methods of the connection object take the steps of the machine of Connections: same
    counters, same calls to the poll manager, same signals, same results. */
module ConnectionMethods {
  import opened Basics
  import opened Channel
  import opened Connections
  import opened SenderWakeups
  import opened ConnectionFrames
  import Object = Connection
  import Framing
  import PollMgr

  /** The object is in the state that the machine gives its descriptor. */
  ghost predicate Represents(c: Object.Connection, s: System)
    reads c
  {
    c.fd in s.conns && c.Out() == s.conns[c.fd].out && c.waiters == s.conns[c.fd].waiters
  }

  /** The call to the poll manager that thread t makes next. */
  function DueCall(s: System, t: nat): PollMgr.Action {
    if At(s, t) && s.tasks[t].Adding? then PollCall(s, SendAdds(t))
    else if At(s, t) && s.tasks[t].MustRemove? then PollCall(s, RemoveStarts(t))
    else PollMgr.Elsewhere
  }

  /** The call that the callback in progress makes next. */
  function DueDeletion(s: System): PollMgr.Action {
    if InCallback(s) && (s.stage.Failing? || s.stage.Dropping?) then PollCall(s, Deletes) else PollMgr.Elsewhere
  }

  /** The callback run on to where it gives up the lock. */
  function Wound(s: System): System {
    var s1 := if Enabled(s, Deletes) then Step(s, Deletes) else s;
    if Enabled(s1, Dies) then Step(s1, Dies) else s1
  }

  /** A failed callback unregisters the connection, sets the dead flag and signals. */
  lemma WoundFailing(s: System)
    requires InCallback(s) && s.stage.Failing?
    ensures Wound(s).conns == SetOut(s, s.poll.pc.fd, s.conns[s.poll.pc.fd].out.(dead := true))
    ensures Wound(s).stage == Leaving(true) && DueDeletion(s) == PollMgr.Del(s.poll.pc.fd, PollMgr.ReadWrite)
  {
  }

  lemma WoundOther(s: System)
    requires InCallback(s) && (s.stage.Dropping? || s.stage.Leaving?)
    ensures Wound(s).conns == s.conns && Wound(s).stage == (if s.stage.Dropping? then Leaving(false) else s.stage)
    ensures DueDeletion(s) == if s.stage.Dropping? then PollMgr.Del(s.poll.pc.fd, PollMgr.WriteOnly) else PollMgr.Elsewhere
  {
  }

  lemma WoundWrite(s: System, w: WriteResult)
    requires Enabled(s, WriteDone(w))
    ensures
      var fd := s.poll.pc.fd;
      var o, s1 := s.conns[fd].out, Step(s, WriteDone(w));
      && fd in Wound(s1).conns && Wound(s1).conns[fd] == s.conns[fd].(out := WriteCb(o, w).0)
      && Wound(s1).stage == Leaving(o.sz != 0 && MayFinish(WriteCb(o, w).0))
      && DueDeletion(s1) == (if o.sz == 0 then PollMgr.Del(fd, PollMgr.WriteOnly)
                             else if WriteCb(o, w).0.dead then PollMgr.Del(fd, PollMgr.ReadWrite)
                             else PollMgr.Elsewhere)
  {
    var s1 := Step(s, WriteDone(w));
    if s1.stage.Failing? {
      WoundFailing(s1);
    } else {
      WoundOther(s1);
    }
  }

  lemma WoundRead(s: System, ok: bool)
    requires Enabled(s, ReadDone(ok))
    ensures
      var fd := s.poll.pc.fd;
      var o, s1 := s.conns[fd].out, Step(s, ReadDone(ok));
      && fd in Wound(s1).conns && Wound(s1).conns[fd] == s.conns[fd].(out := o.(dead := o.dead || !ok))
      && Wound(s1).stage == Leaving(!ok && !o.dead)
      && DueDeletion(s1) == if ok || o.dead then PollMgr.Elsewhere else PollMgr.Del(fd, PollMgr.ReadWrite)
  {
    var s1 := Step(s, ReadDone(ok));
    if s1.stage.Failing? {
      WoundFailing(s1);
    } else {
      WoundOther(s1);
    }
  }

  /** What the first write makes of the connection, and what is left to do. */
  lemma Started(s: System, t: nat, w: WriteResult)
    requires Enabled(s, SendStart(t, w))
    ensures
      var fd, s' := FdOf(s, t), Step(s, SendStart(t, w));
      var (o, b, ok) := WritePdu(Framing.Loaded(OutOf(s, t), s.tasks[t].m), w);
      var end := if !ok then o.(dead := true) else if o.solong == o.sz then Release(o) else o;
      && fd in s'.conns && s'.conns[fd].out == end && s'.conns[fd].waiters == Uncounted(s, t).waiters
      && (t in s'.tasks <==> !ok || o.solong != o.sz)
      && (t in s'.tasks ==> s'.tasks[t] == (if ok then Adding(fd) else MustRemove(fd, true)) && s'.asleep == s.asleep)
  {
  }

  lemma StartedCall(s: System, t: nat, w: WriteResult)
    requires Enabled(s, SendStart(t, w))
    ensures
      var s' := Step(s, SendStart(t, w));
      DueCall(s', t) == if t !in s'.tasks then PollMgr.Elsewhere
                        else if s'.tasks[t].MustRemove? then PollMgr.RemoveBegins(t, FdOf(s, t))
                        else PollMgr.Add(FdOf(s, t), PollMgr.WriteOnly)
  {
    Started(s, t, w);
  }

  /** t itself is awake. */
  lemma StartedSleepers(s: System, t: nat, w: WriteResult)
    requires Enabled(s, SendStart(t, w)) && t !in Step(s, SendStart(t, w)).tasks
    ensures
      var fd, s' := FdOf(s, t), Step(s, SendStart(t, w));
      fd in s'.conns && s'.asleep == if s'.conns[fd].waiters > 0 then s.asleep - TurnSleepers(s, fd) else s.asleep
  {
  }

  /** send from its turn on: the first write and, if that was all, its end. */
  method Sends(c: Object.Connection, t: nat, m: Bytes, counted: bool, w: WriteResult, ghost s: System)
    returns (written: Bytes, call: PollMgr.Action, done: bool, broadcast: bool)
    requires Represents(c, s) && SleepInv(s) && Enabled(s, SendStart(t, w)) && s.tasks[t] == Sending(c.fd, m, counted)
    modifies c
    ensures Represents(c, Step(s, SendStart(t, w)))
    ensures written == BytesOut(s, SendStart(t, w), c.fd) && call == DueCall(Step(s, SendStart(t, w)), t)
    ensures done <==> t !in Step(s, SendStart(t, w)).tasks
    ensures Step(s, SendStart(t, w)).asleep == if broadcast then s.asleep - TurnSleepers(s, c.fd) else s.asleep
  {
    if !counted {
      c.SendEnter();
    } else {
      assert WaitersOk(s, c.fd) && t in Counted(s, c.fd);
    }
    Started(s, t, w);
    StartedCall(s, t, w);
    if t !in Step(s, SendStart(t, w)).tasks {
      StartedSleepers(s, t, w);
    }
    var ok;
    written, ok, call := c.SendStart(t, m, w);
    done, broadcast := false, false;
    if ok && c.wsolong == c.wsz {
      done, broadcast := c.SendEnd();
    }
  }

  method Refuses(c: Object.Connection, t: nat, counted: bool, ghost s: System) returns (ret: bool)
    requires Represents(c, s) && SleepInv(s) && Enabled(s, SendRefused(t)) && FdOf(s, t) == c.fd
    requires counted == s.tasks[t].counted
    modifies c
    ensures Represents(c, Step(s, SendRefused(t))) && !ret
  {
    if !counted {
      c.SendEnter();
    } else {
      assert WaitersOk(s, c.fd) && t in Counted(s, c.fd);
    }
    ret := c.SendRefused();
  }

  /** A thread that finds the turn taken goes to sleep. */
  method Sleeps(c: Object.Connection, t: nat, counted: bool, ghost s: System)
    requires Represents(c, s) && Enabled(s, SendSleeps(t)) && FdOf(s, t) == c.fd && counted == s.tasks[t].counted
    modifies c
    ensures Represents(c, Step(s, SendSleeps(t)))
  {
    if !counted {
      c.SendEnter();
    }
  }

  /** The end of send, after the wait for completion or after a removal. */
  method Ends(c: Object.Connection, t: nat, ghost a: Action, ghost s: System) returns (ret: bool, broadcast: bool)
    requires Represents(c, s) && (a == SendFinish(t) || a == SendGivesUp(t)) && Enabled(s, a) && FdOf(s, t) == c.fd
    modifies c
    ensures Represents(c, Step(s, a))
    ensures ret == (!OutOf(s, t).dead && OutOf(s, t).solong == OutOf(s, t).sz)
    ensures Step(s, a).asleep == if broadcast then s.asleep - TurnSleepers(s, c.fd) else s.asleep
  {
    ret, broadcast := c.SendEnd();
  }

  method Closes(c: Object.Connection, t: nat, ghost s: System) returns (call: PollMgr.Action)
    requires Represents(c, s) && Enabled(s, CloseMarks(t)) && FdOf(s, t) == c.fd
    modifies c
    ensures Represents(c, Step(s, CloseMarks(t))) && call == DueCall(Step(s, CloseMarks(t)), t)
  {
    call := c.CloseConn(t);
  }

  /** write_cb, lock held throughout. */
  method Writes(c: Object.Connection, w: WriteResult, ghost s: System)
    returns (written: Bytes, call: PollMgr.Action, signal: bool)
    requires Represents(c, s) && Inv(s) && Enabled(s, WriteDone(w)) && s.poll.pc.fd == c.fd
    modifies c
    ensures
      var s1 := Step(s, WriteDone(w));
      && Represents(c, Wound(s1)) && Wound(s1).stage == Leaving(signal)
      && written == BytesOut(s, WriteDone(w), c.fd) && call == DueDeletion(s1)
  {
    WoundWrite(s, w);
    written, call, signal := c.WriteCb(w);
  }

  /** read_cb, lock held throughout; how the read went decides the step of the machine. */
  method Reads(c: Object.Connection, r1: ReadResult, r2: ReadResult, accepts: bool, ghost s: System)
    returns (got: Option<Bytes>, call: PollMgr.Action, signal: bool)
    requires Represents(c, s) && Inv(s) && Enabled(s, ReadDone(true)) && s.poll.pc.fd == c.fd
    requires InOk(c.In()) && Sizes(c.In(), r1, r2)
    modifies c
    ensures
      var s1 := Step(s, ReadDone(!signal));
      Represents(c, Wound(s1)) && Wound(s1).stage == Leaving(signal) && call == DueDeletion(s1)
  {
    var taken;
    taken, got, call, signal := c.ReadCb(r1, r2, accepts);
    WoundRead(s, !signal);
  }
}
