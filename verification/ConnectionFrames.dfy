/** The outgoing half of every connection is a sender of Framing: whatever the threads, the
    callbacks and the poll manager do, what a connection writes is framed messages in order. */
module ConnectionFrames {
  import opened Basics
  import opened Wire
  import opened Channel
  import opened Connections
  import opened SenderWakeups
  import F = Framing
  import FT = FramingTheorems

  /** The call of Framing that stands for each thread in send, and the first unused number. */
  datatype Link = Link(ids: map<nat, nat>, next: nat)

  function IdOf(link: Link, t: nat): nat {
    if t in link.ids then link.ids[t] else 0
  }

  predicate InSend(k: Task, fd: nat) {
    WaitsForTurn(k, fd) || HoldsTurn(k, fd)
  }

  predicate CallMatches(k: Task, c: F.Call) {
    if k.Sending? then c == F.Waiting(k.m)
    else if k.Adding? || k.Finishing? then c.Active?
    else c.Removing?
  }

  /** A callback that has failed but not yet set the dead flag. */
  predicate AboutToDie(s: System, fd: nat) {
    s.poll.pc.Running? && s.poll.pc.fd == fd && (s.stage.Failing? || s.stage.Dying?)
  }

  /** The counters as Framing sees them: it sets the dead flag together with the failure. */
  function OutView(s: System, fd: nat): Out
    requires fd in s.conns
  {
    var o := s.conns[fd].out;
    if AboutToDie(s, fd) then o.(dead := true) else o
  }

  /** Every thread in send on fd is a call of its own. */
  ghost predicate Linked(tasks: map<nat, Task>, fd: nat, calls: map<nat, F.Call>, link: Link) {
    && (forall t :: t in tasks && InSend(tasks[t], fd) ==>
          IdOf(link, t) in calls && CallMatches(tasks[t], calls[IdOf(link, t)]))
    && (forall t, u :: t in tasks && u in tasks && InSend(tasks[t], fd) && InSend(tasks[u], fd) && t != u ==>
          IdOf(link, t) != IdOf(link, u))
    && (forall c :: c in calls ==> c < link.next)
  }

  ghost predicate Matches(s: System, fd: nat, f: F.State, link: Link) {
    fd in s.conns && f.out == OutView(s, fd) && Linked(s.tasks, fd, f.calls, link)
  }

  /** The bytes a step gives to write on fd. */
  function BytesOut(s: System, a: Action, fd: nat): Bytes
    requires Guard(s, a)
  {
    match a
    case SendStart(t, w) =>
      if FdOf(s, t) == fd then WritePdu(F.Loaded(OutOf(s, t), s.tasks[t].m), w).1 else []
    case WriteDone(w) => if s.poll.pc.fd == fd then WriteCb(s.conns[fd].out, w).1 else []
    case _ => []
  }

  /** The step of Framing that a step of the connections is on fd, if any. */
  function FrameStep(s: System, a: Action, fd: nat, link: Link): Option<F.Action>
    requires Guard(s, a)
  {
    match a
    case CallSend(t, d, m) => if d == fd then Some(F.Enter(link.next, m)) else None
    case SendRefused(t) => if FdOf(s, t) == fd then Some(F.Refuse(IdOf(link, t))) else None
    case SendStart(t, w) => if FdOf(s, t) == fd then Some(F.Start(IdOf(link, t), w)) else None
    case SendFinish(t) => if FdOf(s, t) == fd then Some(F.Finish(IdOf(link, t))) else None
    case SendGivesUp(t) => if FdOf(s, t) == fd then Some(F.Removed(IdOf(link, t))) else None
    case CloseMarks(t) => if FdOf(s, t) == fd && !OutOf(s, t).dead then Some(F.SenderDies) else None
    case WriteDone(w) => if s.poll.pc.fd == fd then Some(F.Callback(w)) else None
    case ReadDone(ok) =>
      if s.poll.pc.fd == fd && !ok && !s.conns[fd].out.dead then Some(F.SenderDies) else None
    case _ => None
  }

  function NextLink(a: Action, fd: nat, link: Link): Link {
    if a.CallSend? && a.fd == fd then Link(link.ids[a.t := link.next], link.next + 1) else link
  }

  // ---- steps that are none of Framing ----

  lemma CallbackView(s: System, a: Action, fd: nat, link: Link)
    requires Enabled(s, a) && CallbackStep(a) && FrameStep(s, a, fd, link).None? && StageOk(s) && fd in s.conns
    ensures OutView(Step(s, a), fd) == OutView(s, fd)
  {
  }

  lemma SameView(s: System, a: Action, fd: nat, link: Link)
    requires Enabled(s, a) && FrameStep(s, a, fd, link).None? && StageOk(s) && fd in s.conns && fd in Step(s, a).conns
    ensures OutView(Step(s, a), fd) == OutView(s, fd)
  {
    if CallbackStep(a) {
      CallbackView(s, a, fd, link);
    } else {
      SameSignal(s, a, fd);
      if Touched(s, a) != Some(fd) {
        OtherConn(s, a, fd);
      }
    }
  }

  /** Threads keep their place in send, or were never there. */
  lemma LinkedFrame(tasks: map<nat, Task>, tasks': map<nat, Task>, fd: nat, calls: map<nat, F.Call>, link: Link)
    requires Linked(tasks, fd, calls, link)
    requires forall t :: t in tasks' && InSend(tasks'[t], fd) ==>
               && t in tasks && InSend(tasks[t], fd)
               && (CallMatches(tasks[t], calls[IdOf(link, t)]) ==> CallMatches(tasks'[t], calls[IdOf(link, t)]))
    ensures Linked(tasks', fd, calls, link)
  {
  }

  lemma MoverPlace(s: System, a: Action, t: nat, fd: nat, link: Link, c: F.Call)
    requires Enabled(s, a) && FrameStep(s, a, fd, link).None? && Mover(a) == Some(t)
    requires t in Step(s, a).tasks && InSend(Step(s, a).tasks[t], fd)
    ensures t in s.tasks && InSend(s.tasks[t], fd) && (CallMatches(s.tasks[t], c) ==> CallMatches(Step(s, a).tasks[t], c))
  {
  }

  lemma NoFrameStep(s: System, a: Action, fd: nat, f: F.State, link: Link)
    requires Inv(s) && Matches(s, fd, f, link) && Enabled(s, a) && FrameStep(s, a, fd, link).None?
    requires fd in Step(s, a).conns
    ensures Matches(Step(s, a), fd, f, link) && BytesOut(s, a, fd) == []
  {
    var s' := Step(s, a);
    SameView(s, a, fd, link);
    forall t | t in s'.tasks && InSend(s'.tasks[t], fd)
      ensures t in s.tasks && InSend(s.tasks[t], fd)
      ensures CallMatches(s.tasks[t], f.calls[IdOf(link, t)]) ==> CallMatches(s'.tasks[t], f.calls[IdOf(link, t)])
    {
      if Mover(a) == Some(t) {
        MoverPlace(s, a, t, fd, link, f.calls[IdOf(link, t)]);
      } else {
        OtherTask(s, a, t);
      }
    }
    LinkedFrame(s.tasks, s'.tasks, fd, f.calls, link);
  }

  // ---- steps that are ----

  /** Framing can make step fa, and the connection then still matches, bytes included. */
  ghost predicate Simulates(s: System, a: Action, fd: nat, f: F.State, link: Link, fa: F.Action)
    requires Enabled(s, a)
  {
    && F.Enabled(f, fa) && (fa.Start? ==> F.SendSize(f.calls[fa.t].m))
    && Matches(Step(s, a), fd, F.Step(f, fa), NextLink(a, fd, link))
    && F.Step(f, fa).wire == f.wire + BytesOut(s, a, fd)
  }

  /** Thread t and its call moved on together; everybody else is where it was. */
  lemma Relinked(tasks: map<nat, Task>, tasks': map<nat, Task>, fd: nat, calls: map<nat, F.Call>, c: F.Call, link: Link, t: nat)
    requires Linked(tasks, fd, calls, link) && t in tasks && InSend(tasks[t], fd)
    requires forall u :: u != t && u in tasks' ==> u in tasks && tasks'[u] == tasks[u]
    requires t in tasks' ==> CallMatches(tasks'[t], c)
    ensures Linked(tasks', fd, calls[IdOf(link, t) := c], link)
  {
  }

  lemma OthersStay(s: System, a: Action)
    requires Enabled(s, a) && Mover(a).Some?
    ensures forall u :: u != a.t && u in Step(s, a).tasks ==> u in s.tasks && Step(s, a).tasks[u] == s.tasks[u]
  {
    forall u | u != a.t && u in Step(s, a).tasks ensures u in s.tasks && Step(s, a).tasks[u] == s.tasks[u] {
      OtherTask(s, a, u);
    }
  }

  lemma EnterMatches(s: System, t: nat, fd: nat, m: Bytes, f: F.State, link: Link)
    requires Inv(s) && Matches(s, fd, f, link) && Enabled(s, CallSend(t, fd, m))
    ensures Simulates(s, CallSend(t, fd, m), fd, f, link, F.Enter(link.next, m))
  {
    assert f.wire + [] == f.wire;
    OthersStay(s, CallSend(t, fd, m));
  }

  lemma RefuseMatches(s: System, t: nat, fd: nat, f: F.State, link: Link)
    requires Inv(s) && Matches(s, fd, f, link) && Enabled(s, SendRefused(t)) && FdOf(s, t) == fd
    ensures Simulates(s, SendRefused(t), fd, f, link, F.Refuse(IdOf(link, t)))
  {
    assert f.wire + [] == f.wire;
    var s' := Step(s, SendRefused(t));
    OthersStay(s, SendRefused(t));
    Relinked(s.tasks, s'.tasks, fd, f.calls, F.Refused(s.tasks[t].m), link, t);
  }

  /** With the lock free no callback is under way on fd. */
  lemma FreeView(s: System, fd: nat)
    requires StageOk(s) && Free(s, fd)
    ensures OutView(s, fd) == s.conns[fd].out
  {
  }

  lemma StartMatches(s: System, t: nat, w: WriteResult, fd: nat, f: F.State, link: Link)
    requires Inv(s) && F.Inv(f) && Matches(s, fd, f, link) && Enabled(s, SendStart(t, w)) && FdOf(s, t) == fd
    ensures Simulates(s, SendStart(t, w), fd, f, link, F.Start(IdOf(link, t), w))
  {
    var s', id := Step(s, SendStart(t, w)), IdOf(link, t);
    FreeView(s, fd);
    assert F.CallOk(f, id, f.calls[id]);
    var f' := F.Started(f, id, w);
    OthersStay(s, SendStart(t, w));
    Relinked(s.tasks, s'.tasks, fd, f.calls, f'.calls[id], link, t);
    FreeStage(s, fd);
  }

  lemma FreeStage(s: System, fd: nat)
    requires StageOk(s) && Free(s, fd)
    ensures !AboutToDie(s, fd)
  {
  }

  lemma ReleaseMatches(s: System, a: Action, fd: nat, f: F.State, link: Link)
    requires Inv(s) && Matches(s, fd, f, link) && Enabled(s, a) && (a.SendFinish? || a.SendGivesUp?) && FdOf(s, a.t) == fd
    ensures Simulates(s, a, fd, f, link, if a.SendFinish? then F.Finish(IdOf(link, a.t)) else F.Removed(IdOf(link, a.t)))
  {
    assert f.wire + [] == f.wire;
    var s', id := Step(s, a), IdOf(link, a.t);
    FreeView(s, fd);
    FreeStage(s, fd);
    OthersStay(s, a);
    var fa := if a.SendFinish? then F.Finish(id) else F.Removed(id);
    assert F.Enabled(f, fa);
    Relinked(s.tasks, s'.tasks, fd, f.calls, F.Step(f, fa).calls[id], link, a.t);
  }

  lemma CloseMatches(s: System, t: nat, fd: nat, f: F.State, link: Link)
    requires Inv(s) && Matches(s, fd, f, link) && Enabled(s, CloseMarks(t)) && FdOf(s, t) == fd
    requires !OutOf(s, t).dead
    ensures Simulates(s, CloseMarks(t), fd, f, link, F.SenderDies)
  {
    assert f.wire + [] == f.wire;
    var s' := Step(s, CloseMarks(t));
    FreeView(s, fd);
    FreeStage(s, fd);
    OthersStay(s, CloseMarks(t));
    LinkedFrame(s.tasks, s'.tasks, fd, f.calls, link);
  }

  lemma ReadFailsMatches(s: System, fd: nat, f: F.State, link: Link)
    requires Matches(s, fd, f, link) && Enabled(s, ReadDone(false)) && s.poll.pc.fd == fd && !s.conns[fd].out.dead
    ensures Simulates(s, ReadDone(false), fd, f, link, F.SenderDies)
  {
    assert f.wire + [] == f.wire;
  }

  lemma CallbackMatches(s: System, w: WriteResult, fd: nat, f: F.State, link: Link)
    requires Inv(s) && Matches(s, fd, f, link) && Enabled(s, WriteDone(w)) && s.poll.pc.fd == fd
    ensures Simulates(s, WriteDone(w), fd, f, link, F.Callback(w))
  {
  }

  lemma SenderSimulated(s: System, a: Action, fd: nat, f: F.State, link: Link)
    requires Inv(s) && F.Inv(f) && Matches(s, fd, f, link) && Enabled(s, a) && FrameStep(s, a, fd, link).Some?
    requires a.CallSend? || a.SendRefused? || a.SendStart? || a.SendFinish? || a.SendGivesUp? || a.CloseMarks?
    ensures Simulates(s, a, fd, f, link, FrameStep(s, a, fd, link).value)
  {
    if a.CallSend? {
      EnterMatches(s, a.t, fd, a.m, f, link);
    } else if a.SendRefused? {
      RefuseMatches(s, a.t, fd, f, link);
    } else if a.SendStart? {
      StartMatches(s, a.t, a.w, fd, f, link);
    } else if a.CloseMarks? {
      CloseMatches(s, a.t, fd, f, link);
    } else {
      ReleaseMatches(s, a, fd, f, link);
    }
  }

  lemma StepSimulated(s: System, a: Action, fd: nat, f: F.State, link: Link)
    requires Inv(s) && F.Inv(f) && Matches(s, fd, f, link) && Enabled(s, a) && FrameStep(s, a, fd, link).Some?
    ensures Simulates(s, a, fd, f, link, FrameStep(s, a, fd, link).value)
  {
    if a.WriteDone? {
      CallbackMatches(s, a.w, fd, f, link);
    } else if a.ReadDone? {
      ReadFailsMatches(s, fd, f, link);
    } else {
      SenderSimulated(s, a, fd, f, link);
    }
  }

  // ---- whole runs ----

  /** The bytes given to write on fd from step i on, up to step k. */
  function Written(ss: seq<System>, acts: seq<Action>, fd: nat, i: nat, k: nat): (b: Bytes)
    requires i <= k <= |acts| <= |ss|
    decreases k
  {
    if k == i then []
    else Written(ss, acts, fd, i, k - 1) + if Guard(ss[k - 1], acts[k - 1]) then BytesOut(ss[k - 1], acts[k - 1], fd) else []
  }

  /** A connection made at step i is still there at step k. */
  ghost predicate Lives(ss: seq<System>, acts: seq<Action>, fd: nat, i: nat, k: nat) {
    && Run(ss, acts) && i < k <= |acts| && acts[i].Open? && acts[i].fd == fd
    && forall j :: i < j < k ==> acts[j] != Destroy(fd)
  }

  lemma Opened(s: System, t: nat, fd: nat)
    requires Inv(s) && Enabled(s, Open(t, fd))
    ensures Matches(Step(s, Open(t, fd)), fd, F.Init(), Link(map[], 0))
  {
    NobodyInside(s, fd);
    assert !AboutToDie(s, fd);
  }

  lemma StillThere(s: System, a: Action, fd: nat)
    requires Enabled(s, a) && fd in s.conns && a != Destroy(fd)
    ensures fd in Step(s, a).conns
  {
    if Touched(s, a) != Some(fd) {
      OtherConn(s, a, fd);
    }
  }

  lemma FramingSnoc(fs: seq<F.State>, fa: seq<F.Action>, a: F.Action) returns (fs': seq<F.State>, fa': seq<F.Action>)
    requires F.Run(fs, fa) && F.Enabled(fs[|fa|], a) && (a.Start? ==> F.SendSize(fs[|fa|].calls[a.t].m))
    ensures F.Run(fs', fa') && fs'[|fa'|] == F.Step(fs[|fa|], a)
  {
    fs', fa' := fs + [F.Step(fs[|fa|], a)], fa + [a];
    forall i | 0 <= i < |fa'| ensures F.Next(fs'[i], fa'[i], fs'[i + 1]) {
      if i < |fa| {
        assert F.Next(fs[i], fa[i], fs[i + 1]);
      }
    }
  }

  /** In every run, what happens on a connection from its construction on is a run of Framing,
      with the same counters, the same threads in send, and the same bytes written. */
  lemma {:induction false} OutgoingIsFraming(ss: seq<System>, acts: seq<Action>, fd: nat, i: nat, k: nat)
    returns (fs: seq<F.State>, fa: seq<F.Action>, link: Link)
    requires Lives(ss, acts, fd, i, k)
    ensures F.Run(fs, fa) && Matches(ss[k], fd, fs[|fa|], link)
    ensures fs[|fa|].wire == Written(ss, acts, fd, i + 1, k)
    decreases k
  {
    var j := k - 1;
    RunKeeps(ss, acts, j);
    RunNext(ss, acts, j);
    if j == i {
      Opened(ss[i], acts[i].t, fd);
      fs, fa, link := [F.Init()], [], Link(map[], 0);
    } else {
      fs, fa, link := OutgoingIsFraming(ss, acts, fd, i, j);
      FT.RunKeeps(fs, fa, |fa|);
      fs, fa, link := OneMore(ss[j], acts[j], fd, fs, fa, link);
    }
  }

  lemma OneMore(s: System, a: Action, fd: nat, fs: seq<F.State>, fa: seq<F.Action>, link: Link)
    returns (fs': seq<F.State>, fa': seq<F.Action>, link': Link)
    requires Inv(s) && Enabled(s, a) && a != Destroy(fd)
    requires F.Run(fs, fa) && F.Inv(fs[|fa|]) && Matches(s, fd, fs[|fa|], link)
    ensures F.Run(fs', fa') && Matches(Step(s, a), fd, fs'[|fa'|], link')
    ensures fs'[|fa'|].wire == fs[|fa|].wire + BytesOut(s, a, fd)
  {
    if FrameStep(s, a, fd, link).Some? {
      StepSimulated(s, a, fd, fs[|fa|], link);
      fs', fa' := FramingSnoc(fs, fa, FrameStep(s, a, fd, link).value);
      link' := NextLink(a, fd, link);
    } else {
      StillThere(s, a, fd);
      NoFrameStep(s, a, fd, fs[|fa|], link);
      fs', fa', link' := fs, fa, link;
    }
  }

  /** What a connection has written is, at any time, whole frames and perhaps a part of one
      more: with nothing to send, whole frames only. */
  lemma WritesFrames(ss: seq<System>, acts: seq<Action>, fd: nat, i: nat, k: nat) returns (frames: seq<Bytes>)
    requires Lives(ss, acts, fd, i, k)
    ensures forall p :: p in frames ==> F.Framed(p)
    ensures Written(ss, acts, fd, i + 1, k) <= F.Flat(frames)
    ensures fd in ss[k].conns
    ensures !AboutToDie(ss[k], fd) && !ss[k].conns[fd].out.dead && ss[k].conns[fd].out.buf.None? ==>
              Written(ss, acts, fd, i + 1, k) == F.Flat(frames)
  {
    var fs, fa, link := OutgoingIsFraming(ss, acts, fd, i, k);
    FT.RunKeeps(fs, fa, |fa|);
    frames := fs[|fa|].put;
  }

  /** A send that finds its message complete, and so returns true, has written all of it: the
      bytes so far are whole frames, of which its message is the last. */
  lemma SendTrueIsWritten(ss: seq<System>, acts: seq<Action>, fd: nat, i: nat, k: nat, t: nat) returns (frames: seq<Bytes>)
    requires Lives(ss, acts, fd, i, k) && At(ss[k], t) && FdOf(ss[k], t) == fd && Enabled(ss[k], SendFinish(t))
    requires !OutOf(ss[k], t).dead && OutOf(ss[k], t).solong == OutOf(ss[k], t).sz
    ensures OutOf(ss[k], t).buf.Some? && F.SendSize(OutOf(ss[k], t).buf.value)
    ensures forall p :: p in frames ==> F.Framed(p)
    ensures Written(ss, acts, fd, i + 1, k) == F.Flat(frames) + SetLength(OutOf(ss[k], t).buf.value)
  {
    var fs, fa, link := OutgoingIsFraming(ss, acts, fd, i, k);
    var f := fs[|fa|];
    FT.RunKeeps(fs, fa, |fa|);
    RunKeeps(ss, acts, k);
    FreeView(ss[k], fd);
    assert F.CallOk(f, IdOf(link, t), f.calls[IdOf(link, t)]);
    var n := |f.put| - 1;
    frames := f.put[..n];
    assert f.put[n][..f.out.solong] == f.put[n];
  }
}
