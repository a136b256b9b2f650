/** A live connection is always watched: for reading from its construction on, and for writing
    while a sender waits for the rest of its message to be written. */
module Watching {
  import opened Basics
  import opened Connections
  import opened SenderWakeups
  import opened ConnectionFrames

  /** Constructed, not dead, and no callback has just found that it will be. */
  predicate Alive(s: System, fd: nat) {
    fd in s.conns && s.conns[fd].builder.None? && !s.conns[fd].out.dead && !AboutToDie(s, fd)
  }

  predicate ReadOk(s: System, fd: nat) {
    Alive(s, fd) ==> fd in s.poll.b.cbs && fd in s.poll.b.rd
  }

  /** Thread t has written part of its message and waits, or may wait, for the rest. */
  predicate NeedsWriting(s: System, t: nat, fd: nat) {
    t in s.tasks && s.tasks[t] == Finishing(fd) && fd in s.conns && !MayFinish(s.conns[fd].out)
  }

  predicate WriteOk(s: System, t: nat, fd: nat) {
    NeedsWriting(s, t, fd) && Alive(s, fd) ==> fd in s.poll.b.wr
  }

  /** The write callback is given up only when there is nothing to write. */
  predicate DropOk(s: System) {
    s.stage.Dropping? && InCallback(s) ==> s.conns[s.poll.pc.fd].out.sz == 0
  }

  ghost predicate WatchInv(s: System) {
    && (forall fd: nat :: ReadOk(s, fd))
    && (forall t: nat, fd: nat :: WriteOk(s, t, fd))
    && DropOk(s)
  }

  // ---- the tables ----

  /** Steps that unwatch nothing. */
  lemma TablesGrow(s: System, a: Action)
    requires Enabled(s, a) && !a.Deletes? && !a.RemoveStarts? && !a.RemoveReturns?
    ensures s.poll.b.rd <= Step(s, a).poll.b.rd && s.poll.b.wr <= Step(s, a).poll.b.wr
    ensures s.poll.b.cbs <= Step(s, a).poll.b.cbs
  {
  }

  /** A removal concerns a dead connection only. */
  lemma RemovalTables(s: System, a: Action, fd: nat)
    requires Inv(s) && Enabled(s, a) && (a.RemoveStarts? || a.RemoveReturns?) && Alive(s, fd)
    ensures fd in s.poll.b.rd <==> fd in Step(s, a).poll.b.rd
    ensures fd in s.poll.b.wr <==> fd in Step(s, a).poll.b.wr
    ensures fd in s.poll.b.cbs <==> fd in Step(s, a).poll.b.cbs
  {
    assert TaskOk(s, a.t);
    if a.RemoveReturns? {
      ReturnIsEnd(s, a.t);
    }
  }

  lemma DeletionTables(s: System, fd: nat)
    requires Enabled(s, Deletes) && ReadOk(s, fd) && Alive(s, fd)
    ensures fd in Step(s, Deletes).poll.b.rd && fd in Step(s, Deletes).poll.b.cbs
    ensures fd in s.poll.b.wr && !(s.stage.Dropping? && fd == s.poll.pc.fd) ==> fd in Step(s, Deletes).poll.b.wr
  {
  }

  /** Whatever is alive after a step was so before, or has just been built. */
  lemma AliveBefore(s: System, a: Action, fd: nat)
    requires Inv(s) && Enabled(s, a) && Alive(Step(s, a), fd)
    ensures Alive(s, fd) || (a.Built? && FdOf(s, a.t) == fd)
  {
    assert ConnOk(s, fd);
    if Touched(s, a) != Some(fd) {
      OtherConn(s, a, fd);
      if !CallbackStep(a) {
        SameSignal(s, a, fd);
      }
    }
  }

  lemma ReadStep(s: System, a: Action, fd: nat)
    requires Inv(s) && ReadOk(s, fd) && Enabled(s, a)
    ensures ReadOk(Step(s, a), fd)
  {
    if Alive(Step(s, a), fd) {
      AliveBefore(s, a, fd);
      if Alive(s, fd) {
        if a.Deletes? {
          DeletionTables(s, fd);
        } else if a.RemoveStarts? || a.RemoveReturns? {
          RemovalTables(s, a, fd);
        } else {
          TablesGrow(s, a);
        }
      }
    }
  }

  // ---- senders that wait ----

  /** A finished message stays finished as long as its sender has the turn. */
  lemma NeedsBefore(s: System, a: Action, t: nat, fd: nat)
    requires Inv(s) && SleepInv(s) && Enabled(s, a) && NeedsWriting(Step(s, a), t, fd)
    ensures NeedsWriting(s, t, fd) || (a.SendAdds? && a.t == t && FdOf(s, t) == fd)
  {
    assert TaskOk(s, t) && TurnOk(s, fd);
    if Mover(a) != Some(t) {
      OtherTask(s, a, t);
      assert t in Holders(s, fd);
      if a.SendFinish? || a.SendGivesUp? {
        assert a.t in Holders(s, FdOf(s, a.t));
      }
    }
    NeedsOut(s, a, t, fd);
  }

  lemma NeedsOut(s: System, a: Action, t: nat, fd: nat)
    requires Inv(s) && Enabled(s, a) && fd in s.conns && fd in Step(s, a).conns && !MayFinish(Step(s, a).conns[fd].out)
    requires a.SendStart? || a.SendFinish? || a.SendGivesUp? ==> Touched(s, a) != Some(fd)
    ensures !MayFinish(s.conns[fd].out)
  {
    if Touched(s, a) != Some(fd) {
      OtherConn(s, a, fd);
    } else if !CallbackStep(a) {
      OtherOut(s, a, fd);
    }
  }

  lemma WriteStep(s: System, a: Action, t: nat, fd: nat)
    requires Inv(s) && SleepInv(s) && WatchInv(s) && Enabled(s, a)
    ensures WriteOk(Step(s, a), t, fd)
  {
    var s' := Step(s, a);
    if NeedsWriting(s', t, fd) && Alive(s', fd) {
      NeedsBefore(s, a, t, fd);
      AliveBefore(s, a, fd);
      assert TaskOk(s, t) && ReadOk(s, fd) && WriteOk(s, t, fd);
      if !(a.SendAdds? && a.t == t) {
        StillWatched(s, a, t, fd);
      }
    }
  }

  lemma StillWatched(s: System, a: Action, t: nat, fd: nat)
    requires Inv(s) && DropOk(s) && ReadOk(s, fd) && WriteOk(s, t, fd) && Enabled(s, a)
    requires NeedsWriting(s, t, fd) && Alive(s, fd)
    ensures fd in Step(s, a).poll.b.wr
  {
    if a.Deletes? {
      DeletionTables(s, fd);
    } else if a.RemoveStarts? || a.RemoveReturns? {
      RemovalTables(s, a, fd);
    } else {
      TablesGrow(s, a);
    }
  }

  lemma DropStep(s: System, a: Action)
    requires Inv(s) && DropOk(s) && Enabled(s, a)
    ensures DropOk(Step(s, a))
  {
    if !CallbackStep(a) && s.stage.Dropping? {
      DropFrame(s, a);
    }
  }

  /** While a callback holds the lock nobody else touches its connection's counters. */
  lemma DropFrame(s: System, a: Action)
    requires Inv(s) && Enabled(s, a) && !CallbackStep(a) && s.stage.Dropping?
    ensures
      var fd := s.poll.pc.fd;
      && Step(s, a).stage == s.stage && Step(s, a).poll.pc == s.poll.pc
      && fd in s.conns && fd in Step(s, a).conns && Step(s, a).conns[fd].out.sz == s.conns[fd].out.sz
  {
    var fd := s.poll.pc.fd;
    assert StageOk(s);
    SameStage(s, a);
    if Touched(s, a) != Some(fd) {
      OtherConn(s, a, fd);
    } else {
      assert a.SendAdds? || a.Built? || a.RemoveStarts? || a.RemoveReturns?;
      OtherOut(s, a, fd);
    }
  }

  lemma SameStage(s: System, a: Action)
    requires Enabled(s, a) && !CallbackStep(a) && !s.stage.Outside?
    ensures Step(s, a).stage == s.stage && Step(s, a).poll.pc == s.poll.pc
  {
    CallEffect(s, a);
  }

  // ---- every run ----

  lemma NextWatch(s: System, a: Action, s': System)
    requires Inv(s) && SleepInv(s) && WatchInv(s) && Next(s, a, s')
    ensures WatchInv(s')
  {
    forall fd: nat ensures ReadOk(s', fd) {
      ReadStep(s, a, fd);
    }
    forall t: nat, fd: nat ensures WriteOk(s', t, fd) {
      WriteStep(s, a, t, fd);
    }
    DropStep(s, a);
  }

  lemma {:induction false} RunWatches(ss: seq<System>, acts: seq<Action>, i: nat)
    requires Run(ss, acts) && i < |ss|
    ensures WatchInv(ss[i])
  {
    if i > 0 {
      var j := i - 1;
      RunWatches(ss, acts, j);
      RunKeeps(ss, acts, j);
      RunSleepInv(ss, acts, j);
      RunNext(ss, acts, j);
      NextWatch(ss[j], acts[j], ss[i]);
    }
  }

  /** In every run a live connection is registered and watched for reading, and for writing as
      long as a sender on it waits for bytes that are not written. */
  lemma LiveIsWatched(ss: seq<System>, acts: seq<Action>, i: nat, fd: nat)
    requires Run(ss, acts) && i < |ss| && Alive(ss[i], fd)
    ensures fd in ss[i].poll.b.cbs && fd in ss[i].poll.b.rd
    ensures (exists t: nat :: NeedsWriting(ss[i], t, fd)) ==> fd in ss[i].poll.b.wr
  {
    RunWatches(ss, acts, i);
    assert ReadOk(ss[i], fd);
    if t: nat :| NeedsWriting(ss[i], t, fd) {
      assert WriteOk(ss[i], t, fd);
    }
  }
}
