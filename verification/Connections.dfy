/** All connections of a process and the poll manager together: the regions of send,
    closeconn, read_cb and write_cb under the connection's lock, their two condition variables,
    and the poll-manager calls they make.  Every run of them is a run of the poll manager that
    keeps its discipline. */
module Connections {
  import opened Basics
  import opened Channel
  import PollMgr
  import Framing

  /** Who holds a connection's lock across more than one step. */
  datatype Who = Thread(t: nat) | Poller

  /** A connection object: its outgoing half and dead flag, the holder of its lock, the thread
      inside its constructor, if it is not finished, and `waiters_`. */
  datatype Conn = Conn(out: Out, holder: Option<Who>, builder: Option<nat>, waiters: nat)

  /** What a thread is doing with a connection. */
  datatype Task =
    | Opening(fd: nat)                // in the constructor, before add_callback
    | Sending(fd: nat, m: Bytes, counted: bool) // in send, without its turn; counted among the waiters
    | Adding(fd: nat)                 // in send, lock held, about to add the write callback
    | Finishing(fd: nat)              // in send, waiting for completion
    | Closing(fd: nat)                // in closeconn, before the lock
    | MustRemove(fd: nat, sends: bool) // dead flag set, lock released, before block_remove_fd
    | Removing(fd: nat, sends: bool)  // in the wait of block_remove_fd
    | Removed(fd: nat)                // in send, after a failed write and the removal

  /** How far the running callback is; its lock is held except at Outside.  Leaving says
      whether it signals `send_complete_`. */
  datatype Stage = Outside | Inside | Dropping | Failing | Dying | Leaving(signals: bool)

  /** asleep: the threads in a condition wait of send, on `send_wait_` while Sending and on
      `send_complete_` while Finishing. */
  datatype System = System(
    poll: PollMgr.State, conns: map<nat, Conn>, tasks: map<nat, Task>, stage: Stage, asleep: set<nat>)

  datatype Action =
    | Poll(a: PollMgr.Action)
    | Open(t: nat, fd: nat)
    | Built(t: nat)
    | CallSend(t: nat, fd: nat, m: Bytes)
    | SendSleeps(t: nat)
    | SendRefused(t: nat)
    | SendStart(t: nat, w: WriteResult)
    | SendAdds(t: nat)
    | FinishSleeps(t: nat)
    | SendFinish(t: nat)
    | Wakes(t: nat)                   // a spurious wakeup
    | CallClose(t: nat, fd: nat)
    | CloseMarks(t: nat)
    | RemoveStarts(t: nat)
    | RemoveReturns(t: nat)
    | SendGivesUp(t: nat)
    | Enter
    | ReadDone(ok: bool)
    | WriteDone(w: WriteResult)
    | Deletes
    | Dies
    | Returns
    | Destroy(fd: nat)

  function Init(): System {
    System(PollMgr.Init(), map[], map[], Outside, {})
  }

  predicate Free(s: System, fd: nat) {
    fd in s.conns && s.conns[fd].holder.None?
  }

  predicate At(s: System, t: nat) {
    t in s.tasks && s.tasks[t].fd in s.conns
  }

  function FdOf(s: System, t: nat): nat
    requires At(s, t)
  {
    s.tasks[t].fd
  }

  function OutOf(s: System, t: nat): Out
    requires At(s, t)
  {
    s.conns[FdOf(s, t)].out
  }

  /** What ends the wait for completion. */
  predicate MayFinish(o: Out) {
    o.dead || o.solong < 0 || o.solong >= o.sz
  }

  predicate InCallback(s: System) {
    s.poll.pc.Running? && s.poll.pc.fd in s.conns
  }

  /** The thread is not asleep and can have its connection's lock. */
  predicate MayRun(s: System, t: nat) {
    At(s, t) && t !in s.asleep && Free(s, s.tasks[t].fd)
  }

  /** The poll thread's own steps. */
  predicate PollThread(a: PollMgr.Action) {
    a.Broadcast? || a.Snapshot? || a.SelectReturns? || a.Serve? || a.Call?
  }

  predicate Guard(s: System, a: Action) {
    match a
    case Poll(p) => PollThread(p) && s.stage.Outside?
    case Open(t, fd) => fd !in s.conns && t !in s.tasks
    case Built(t) => At(s, t) && s.tasks[t].Opening?
    case CallSend(t, fd, m) => t !in s.tasks && fd in s.conns && s.conns[fd].builder.None? && Framing.SendSize(m)
    case SendSleeps(t) => MayRun(s, t) && s.tasks[t].Sending? && !OutOf(s, t).dead && OutOf(s, t).buf.Some?
    case SendRefused(t) => MayRun(s, t) && s.tasks[t].Sending? && OutOf(s, t).dead
    case SendStart(t, w) =>
      && MayRun(s, t) && s.tasks[t].Sending? && !OutOf(s, t).dead && OutOf(s, t).buf.None?
      && Writable(Framing.Loaded(OutOf(s, t), s.tasks[t].m), w)
    case SendAdds(t) => At(s, t) && s.tasks[t].Adding?
    case FinishSleeps(t) => MayRun(s, t) && s.tasks[t].Finishing? && !MayFinish(OutOf(s, t))
    case SendFinish(t) => MayRun(s, t) && s.tasks[t].Finishing? && MayFinish(OutOf(s, t))
    case Wakes(t) => t in s.asleep
    case CallClose(t, fd) => t !in s.tasks && fd in s.conns && s.conns[fd].builder.None?
    case CloseMarks(t) => At(s, t) && s.tasks[t].Closing? && Free(s, s.tasks[t].fd)
    case RemoveStarts(t) => At(s, t) && s.tasks[t].MustRemove?
    case RemoveReturns(t) => At(s, t) && s.tasks[t].Removing?
    case SendGivesUp(t) => At(s, t) && s.tasks[t].Removed? && Free(s, s.tasks[t].fd)
    case Enter => InCallback(s) && s.stage.Outside? && Free(s, s.poll.pc.fd)
    case ReadDone(ok) => InCallback(s) && s.stage.Inside? && !s.poll.pc.write
    // a dead connection makes write_cb abort the program
    case WriteDone(w) =>
      && InCallback(s) && s.stage.Inside? && s.poll.pc.write
      && var o := s.conns[s.poll.pc.fd].out; !o.dead && (o.sz != 0 ==> Writable(o, w))
    case Deletes => InCallback(s) && (s.stage.Dropping? || s.stage.Failing?)
    case Dies => InCallback(s) && s.stage.Dying?
    case Returns => InCallback(s) && s.stage.Leaving?
    // the last reference is gone, so no thread is inside
    case Destroy(fd) => Free(s, fd) && s.conns[fd].out.dead && forall t :: t in s.tasks ==> s.tasks[t].fd != fd
  }

  /** What a thread's first write in send came to. */
  function FirstWrite(s: System, t: nat, w: WriteResult): (Out, bool)
    requires Guard(s, SendStart(t, w))
  {
    var (o, b, ok) := WritePdu(Framing.Loaded(OutOf(s, t), s.tasks[t].m), w);
    (o, ok)
  }

  /** The call a step makes to the poll manager, if any.  Setting a dead flag is recorded
      there too. */
  function PollCall(s: System, a: Action): PollMgr.Action
    requires Guard(s, a)
  {
    match a
    case Poll(p) => p
    case Open(t, fd) => if fd in s.poll.dead then PollMgr.Reopen(fd) else PollMgr.Elsewhere
    case Built(t) => PollMgr.Add(s.tasks[t].fd, PollMgr.ReadOnly)
    case SendStart(t, w) => if FirstWrite(s, t, w).1 then PollMgr.Elsewhere else PollMgr.Die(s.tasks[t].fd)
    case SendAdds(t) => PollMgr.Add(s.tasks[t].fd, PollMgr.WriteOnly)
    case CloseMarks(t) => if OutOf(s, t).dead then PollMgr.Elsewhere else PollMgr.Die(s.tasks[t].fd)
    case RemoveStarts(t) => PollMgr.RemoveBegins(t, s.tasks[t].fd)
    case RemoveReturns(t) => PollMgr.RemoveEnds(t)
    case Deletes => PollMgr.Del(s.poll.pc.fd, if s.stage.Dropping? then PollMgr.WriteOnly else PollMgr.ReadWrite)
    case Dies => PollMgr.Die(s.poll.pc.fd)
    case Returns => PollMgr.CallbackReturns
    case _ => PollMgr.Elsewhere
  }

  predicate Enabled(s: System, a: Action) {
    Guard(s, a) && PollMgr.Possible(s.poll, PollCall(s, a))
  }

  function SetOut(s: System, fd: nat, o: Out): map<nat, Conn>
    requires fd in s.conns
  {
    s.conns[fd := s.conns[fd].(out := o)]
  }

  /** The connection once t no longer waits for its turn. */
  function Uncounted(s: System, t: nat): Conn
    requires At(s, t) && s.tasks[t].Sending?
  {
    var c := s.conns[s.tasks[t].fd];
    if s.tasks[t].counted && c.waiters > 0 then c.(waiters := c.waiters - 1) else c
  }

  predicate WaitsForTurn(k: Task, fd: nat) {
    k.Sending? && k.fd == fd
  }

  /** Those who wait for a turn on fd, and for their message on fd to be complete. */
  function TurnSleepers(s: System, fd: nat): set<nat> {
    set t | t in s.asleep && t in s.tasks && WaitsForTurn(s.tasks[t], fd)
  }

  function FinishSleepers(s: System, fd: nat): set<nat> {
    set t | t in s.asleep && t in s.tasks && s.tasks[t] == Finishing(fd)
  }

  /** `if (waiters_ > 0) broadcast(send_wait_)`: who is still asleep. */
  function Broadcast(s: System, fd: nat): set<nat>
    requires fd in s.conns
  {
    if s.conns[fd].waiters > 0 then s.asleep - TurnSleepers(s, fd) else s.asleep
  }

  function DoSendSleeps(s: System, t: nat): System
    requires Guard(s, SendSleeps(t))
  {
    var k := s.tasks[t];
    var c := s.conns[k.fd];
    s.(conns := if k.counted then s.conns else s.conns[k.fd := c.(waiters := c.waiters + 1)],
       tasks := s.tasks[t := k.(counted := true)], asleep := s.asleep + {t})
  }

  function DoSendStart(s: System, t: nat, w: WriteResult): System
    requires Guard(s, SendStart(t, w))
  {
    var fd, c := s.tasks[t].fd, Uncounted(s, t);
    var (o, ok) := FirstWrite(s, t, w);
    if !ok then s.(conns := s.conns[fd := c.(out := o.(dead := true))], tasks := s.tasks[t := MustRemove(fd, true)])
    else if o.solong == o.sz then
      var s1 := s.(conns := s.conns[fd := c.(out := Release(o))], tasks := s.tasks - {t});
      s1.(asleep := Broadcast(s1, fd))
    else s.(conns := s.conns[fd := c.(out := o, holder := Some(Thread(t)))], tasks := s.tasks[t := Adding(fd)])
  }

  /** The end of send. */
  function DoRelease(s: System, t: nat): System
    requires At(s, t)
  {
    var fd := s.tasks[t].fd;
    s.(conns := SetOut(s, fd, Release(OutOf(s, t))), tasks := s.tasks - {t}, asleep := Broadcast(s, fd))
  }

  function DoReturns(s: System): System
    requires Guard(s, Returns)
  {
    var fd := s.poll.pc.fd;
    s.(conns := s.conns[fd := s.conns[fd].(holder := None)], stage := Outside,
       asleep := if s.stage.signals then s.asleep - FinishSleepers(s, fd) else s.asleep)
  }

  function DoWriteDone(s: System, w: WriteResult): System
    requires Guard(s, WriteDone(w))
  {
    var fd := s.poll.pc.fd;
    var o := s.conns[fd].out;
    if o.sz == 0 then s.(stage := Dropping)
    else
      var (o1, b, ok) := WritePdu(o, w);
      s.(conns := SetOut(s, fd, o1), stage := if ok then Leaving(o1.solong >= o1.sz) else Failing)
  }

  /** The step, poll manager aside. */
  function Local(s: System, a: Action): System
    requires Guard(s, a)
  {
    match a
    case Poll(p) => s
    case Open(t, fd) =>
      s.(conns := s.conns[fd := Conn(Framing.Init().out, None, Some(t), 0)], tasks := s.tasks[t := Opening(fd)])
    case Built(t) =>
      s.(conns := s.conns[s.tasks[t].fd := s.conns[s.tasks[t].fd].(builder := None)], tasks := s.tasks - {t})
    case CallSend(t, fd, m) => s.(tasks := s.tasks[t := Sending(fd, m, false)])
    case SendSleeps(t) => DoSendSleeps(s, t)
    case SendRefused(t) => s.(conns := s.conns[s.tasks[t].fd := Uncounted(s, t)], tasks := s.tasks - {t})
    case SendStart(t, w) => DoSendStart(s, t, w)
    case SendAdds(t) =>
      var fd := s.tasks[t].fd;
      s.(conns := s.conns[fd := s.conns[fd].(holder := None)], tasks := s.tasks[t := Finishing(fd)],
         asleep := if MayFinish(OutOf(s, t)) then s.asleep else s.asleep + {t})
    case FinishSleeps(t) => s.(asleep := s.asleep + {t})
    case SendFinish(t) => DoRelease(s, t)
    case Wakes(t) => s.(asleep := s.asleep - {t})
    case CallClose(t, fd) => s.(tasks := s.tasks[t := Closing(fd)])
    case CloseMarks(t) =>
      var fd := s.tasks[t].fd;
      if OutOf(s, t).dead then s.(tasks := s.tasks - {t})
      else s.(conns := SetOut(s, fd, OutOf(s, t).(dead := true)), tasks := s.tasks[t := MustRemove(fd, false)])
    case RemoveStarts(t) => s.(tasks := s.tasks[t := Removing(s.tasks[t].fd, s.tasks[t].sends)])
    case RemoveReturns(t) =>
      s.(tasks := if s.tasks[t].sends then s.tasks[t := Removed(s.tasks[t].fd)] else s.tasks - {t})
    case SendGivesUp(t) => DoRelease(s, t)
    case Enter =>
      s.(conns := s.conns[s.poll.pc.fd := s.conns[s.poll.pc.fd].(holder := Some(Poller))], stage := Inside)
    case ReadDone(ok) => s.(stage := if s.conns[s.poll.pc.fd].out.dead || ok then Leaving(false) else Failing)
    case WriteDone(w) => DoWriteDone(s, w)
    case Deletes => s.(stage := if s.stage.Dropping? then Leaving(false) else Dying)
    case Dies =>
      s.(conns := SetOut(s, s.poll.pc.fd, s.conns[s.poll.pc.fd].out.(dead := true)), stage := Leaving(true))
    case Returns => DoReturns(s)
    case Destroy(fd) => s.(conns := s.conns - {fd})
  }

  function Step(s: System, a: Action): System
    requires Enabled(s, a)
  {
    Local(s, a).(poll := PollMgr.Step(s.poll, PollCall(s, a)))
  }

  ghost predicate Next(s: System, a: Action, s': System) {
    Enabled(s, a) && s' == Step(s, a)
  }

  ghost predicate Run(ss: seq<System>, acts: seq<Action>) {
    && |ss| == |acts| + 1 && ss[0] == Init()
    && forall i {:trigger Next(ss[i], acts[i], ss[i + 1])} :: 0 <= i < |acts| ==> Next(ss[i], acts[i], ss[i + 1])
  }

  // ---- invariants ----

  predicate IsRemover(k: Task) {
    k.MustRemove? || k.Removing?
  }

  /** Some thread is on its way to removing fd, or in the middle of it. */
  predicate BeingRemoved(tasks: map<nat, Task>, fd: nat) {
    exists t :: t in tasks && IsRemover(tasks[t]) && tasks[t].fd == fd
  }

  predicate IsAdding(tasks: map<nat, Task>, t: nat, fd: nat) {
    t in tasks && tasks[t] == Adding(fd)
  }

  /** A thread is inside a connection that exists; it sets the dead flag before it removes,
      and while it is about to add a callback it holds the lock of a live connection. */
  predicate TaskOk(s: System, t: nat) {
    && (t in s.poll.waiting || t in s.poll.woken <==> t in s.tasks && s.tasks[t].Removing?)
    && !(t in s.poll.waiting && t in s.poll.woken)
    && (t in s.poll.waiting ==> s.poll.waiting[t] == s.tasks[t].fd)
    && (t in s.poll.woken ==> s.poll.woken[t] == s.tasks[t].fd)
    && (t in s.tasks ==>
         && s.tasks[t].fd in s.conns
         && var c := s.conns[s.tasks[t].fd];
            && c.builder == (if s.tasks[t].Opening? then Some(t) else None)
            && (s.tasks[t].Adding? ==> c.holder == Some(Thread(t)) && !c.out.dead)
            && (IsRemover(s.tasks[t]) || s.tasks[t].Removed? ==> c.out.dead))
  }

  /** A dead connection is unregistered, or somebody is about to see to it. */
  predicate ConnOk(s: System, fd: nat) {
    && (fd in s.poll.b.cbs ==> fd in s.conns && s.conns[fd].builder.None?)
    && (fd in s.conns ==>
         && var c := s.conns[fd];
            && (c.out.dead <==> fd in s.poll.dead)
            && (c.builder.Some? ==> !c.out.dead && c.holder.None?)
            && (c.holder == Some(Poller) ==> s.poll.pc.Running? && s.poll.pc.fd == fd && !s.stage.Outside?)
            && (c.holder.Some? && c.holder.value.Thread? ==> IsAdding(s.tasks, c.holder.value.t, fd))
            && (c.out.dead ==> BeingRemoved(s.tasks, fd) || fd !in s.poll.b.cbs))
  }

  /** The callback in progress has the lock of an existing connection; until then that
      connection is registered. */
  predicate StageOk(s: System) {
    && (!s.stage.Outside? ==> InCallback(s) && s.conns[s.poll.pc.fd].holder == Some(Poller))
    && (s.stage.Dropping? || s.stage.Failing? || s.stage.Dying? ==> InCallback(s) && !s.conns[s.poll.pc.fd].out.dead)
    && (s.stage.Dying? ==> s.poll.pc.Running? && s.poll.pc.fd !in s.poll.b.cbs)
    && (s.stage.Outside? && s.poll.pc.Running? ==> s.poll.pc.fd in s.poll.b.cbs)
  }

  ghost predicate Inv(s: System) {
    && PollMgr.Inv(s.poll)
    && (forall t: nat :: TaskOk(s, t))
    && (forall fd: nat :: ConnOk(s, fd))
    && StageOk(s)
  }

  /** What the poll manager assumes of its callers, the connections keep to. */
  lemma ConnectionsAreDisciplined(s: System, a: Action)
    requires Inv(s) && Enabled(s, a)
    ensures PollMgr.Disciplined(s.poll, PollCall(s, a))
  {
    match a {
      case Open(t, fd) =>
        forall u | u in s.poll.waiting ensures s.poll.waiting[u] != fd {
          assert TaskOk(s, u);
        }
        forall u | u in s.poll.woken ensures s.poll.woken[u] != fd {
          assert TaskOk(s, u);
        }
      case Built(t) => assert TaskOk(s, t) && ConnOk(s, s.tasks[t].fd);
      case SendAdds(t) => assert TaskOk(s, t) && ConnOk(s, s.tasks[t].fd);
      case RemoveStarts(t) => assert TaskOk(s, t) && ConnOk(s, s.tasks[t].fd);
      case _ =>
    }
  }

  // ---- every step keeps them ----

  /** Steps of a thread that is in send and calls nobody. */
  predicate InsideStep(a: Action) {
    a.SendSleeps? || a.SendRefused? || a.FinishSleeps? || a.SendFinish? || a.Wakes? || a.SendGivesUp?
  }

  /** Steps of a thread that call the poll manager or may set the dead flag. */
  predicate CallingStep(a: Action) {
    a.CloseMarks? || a.SendStart? || a.SendAdds? || a.Built? || a.RemoveStarts? || a.RemoveReturns?
  }

  predicate CallbackStep(a: Action) {
    a.Enter? || a.ReadDone? || a.WriteDone? || a.Deletes? || a.Dies? || a.Returns?
  }

  lemma CallKeepsWaits(p: PollMgr.State, c: PollMgr.Action)
    requires PollMgr.Possible(p, c) && !c.Broadcast? && !c.RemoveBegins? && !c.RemoveEnds?
    ensures PollMgr.Step(p, c).waiting == p.waiting && PollMgr.Step(p, c).woken == p.woken
  {
  }

  /** Steps that start or end no wait. */
  lemma WaitsFrame(s: System, a: Action)
    requires Enabled(s, a) && !a.Poll? && !a.RemoveStarts? && !a.RemoveReturns?
    ensures Step(s, a).poll.waiting == s.poll.waiting && Step(s, a).poll.woken == s.poll.woken
  {
    CallKeepsWaits(s.poll, PollCall(s, a));
  }

  /** Thread u and its connection are as before, or the connection is dead in addition. */
  lemma TaskFrame(s: System, s': System, u: nat)
    requires TaskOk(s, u)
    requires s'.poll.waiting == s.poll.waiting && s'.poll.woken == s.poll.woken
    requires u in s'.tasks <==> u in s.tasks
    requires u in s.tasks ==>
               && s'.tasks[u] == s.tasks[u] && s.tasks[u].fd in s'.conns
               && var c, c' := s.conns[s.tasks[u].fd], s'.conns[s.tasks[u].fd];
                  && c'.builder == c.builder && (c.out.dead ==> c'.out.dead)
                  && (s.tasks[u].Adding? ==> c'.holder == c.holder && c'.out.dead == c.out.dead)
    ensures TaskOk(s', u)
  {
  }

  /** Steps of thread t that work on a free connection. */
  lemma FreeStepTasks(s: System, a: Action, t: nat, u: nat)
    requires TaskOk(s, t) && TaskOk(s, u) && Enabled(s, a)
    requires a in {SendSleeps(t), SendRefused(t), FinishSleeps(t), SendFinish(t), CloseMarks(t), SendGivesUp(t)}
    ensures TaskOk(Step(s, a), u)
  {
    WaitsFrame(s, a);
    if u != t {
      TaskFrame(s, Step(s, a), u);
    }
  }

  lemma SendStartTasks(s: System, t: nat, w: WriteResult, u: nat)
    requires TaskOk(s, t) && TaskOk(s, u) && Enabled(s, SendStart(t, w))
    ensures TaskOk(Step(s, SendStart(t, w)), u)
  {
    WaitsFrame(s, SendStart(t, w));
    if u != t {
      TaskFrame(s, Step(s, SendStart(t, w)), u);
    }
  }

  lemma SendAddsTasks(s: System, t: nat, u: nat)
    requires TaskOk(s, t) && TaskOk(s, u) && Enabled(s, SendAdds(t))
    ensures TaskOk(Step(s, SendAdds(t)), u)
  {
    WaitsFrame(s, SendAdds(t));
    if u != t {
      TaskFrame(s, Step(s, SendAdds(t)), u);
    }
  }

  lemma ArrivalTasks(s: System, a: Action, u: nat)
    requires TaskOk(s, u) && Enabled(s, a) && (a.Open? || a.CallSend? || a.CallClose?)
    ensures TaskOk(Step(s, a), u)
  {
    WaitsFrame(s, a);
    if u != a.t {
      TaskFrame(s, Step(s, a), u);
    }
  }

  lemma BuiltTasks(s: System, t: nat, u: nat)
    requires TaskOk(s, t) && TaskOk(s, u) && Enabled(s, Built(t))
    ensures TaskOk(Step(s, Built(t)), u)
  {
    WaitsFrame(s, Built(t));
    if u != t {
      TaskFrame(s, Step(s, Built(t)), u);
    }
  }

  lemma CallbackTasks(s: System, a: Action, u: nat)
    requires TaskOk(s, u) && StageOk(s) && Enabled(s, a)
    requires CallbackStep(a)
    ensures TaskOk(Step(s, a), u)
  {
    WaitsFrame(s, a);
    TaskFrame(s, Step(s, a), u);
  }

  lemma RemovalTasks(s: System, a: Action, t: nat, u: nat)
    requires TaskOk(s, t) && TaskOk(s, u) && Enabled(s, a) && (a == RemoveStarts(t) || a == RemoveReturns(t))
    ensures TaskOk(Step(s, a), u)
  {
  }

  lemma PollTasks(s: System, a: Action, u: nat)
    requires TaskOk(s, u) && Enabled(s, a) && (a.Poll? || a.Destroy?)
    ensures TaskOk(Step(s, a), u)
  {
  }

  lemma InsideTasks(s: System, a: Action, u: nat)
    requires Enabled(s, a) && InsideStep(a) && TaskOk(s, a.t) && TaskOk(s, u)
    ensures TaskOk(Step(s, a), u)
  {
    if a.Wakes? {
      WaitsFrame(s, a);
      TaskFrame(s, Step(s, a), u);
    } else {
      FreeStepTasks(s, a, a.t, u);
    }
  }

  lemma ThreadTasks(s: System, a: Action, t: nat, u: nat)
    requires TaskOk(s, t) && TaskOk(s, u) && Enabled(s, a)
    requires CallingStep(a) && t == a.t
    ensures TaskOk(Step(s, a), u)
  {
    if a.CloseMarks? {
      FreeStepTasks(s, a, t, u);
    } else if a.SendStart? {
      SendStartTasks(s, t, a.w, u);
    } else if a.SendAdds? {
      SendAddsTasks(s, t, u);
    } else if a.Built? {
      BuiltTasks(s, t, u);
    } else {
      RemovalTasks(s, a, t, u);
    }
  }

  lemma TaskStep(s: System, a: Action, u: nat)
    requires Inv(s) && Enabled(s, a)
    ensures TaskOk(Step(s, a), u)
  {
    assert TaskOk(s, u);
    if InsideStep(a) {
      assert TaskOk(s, a.t);
      InsideTasks(s, a, u);
    } else if CallingStep(a) {
      assert TaskOk(s, a.t);
      ThreadTasks(s, a, a.t, u);
    } else if a.Open? || a.CallSend? || a.CallClose? {
      ArrivalTasks(s, a, u);
    } else if a.Poll? || a.Destroy? {
      PollTasks(s, a, u);
    } else {
      CallbackTasks(s, a, u);
    }
  }

  // ---- connections ----

  /** What a call does to the tables the connections look at. */
  lemma CallEffect(s: System, a: Action)
    requires Enabled(s, a) && !a.Poll?
    ensures
      var p, p', c := s.poll, Step(s, a).poll, PollCall(s, a);
      && (forall fd: nat :: fd in p'.b.cbs ==> fd in p.b.cbs || (c.Add? && fd == c.fd))
      && (forall fd: nat :: fd in p'.dead <==> (fd in p.dead && !(c.Reopen? && fd == c.fd)) || (c.Die? && fd == c.fd))
      && (!a.Returns? ==> p'.pc == p.pc)
  {
  }

  /** Every remover of fd stays one. */
  predicate RemoversStay(tasks: map<nat, Task>, tasks': map<nat, Task>, fd: nat) {
    forall u :: u in tasks && IsRemover(tasks[u]) && tasks[u].fd == fd ==>
      u in tasks' && IsRemover(tasks'[u]) && tasks'[u].fd == fd
  }

  /** fd's connection is as before, or not there, and nothing about it got worse. */
  lemma ConnFrame(s: System, s': System, fd: nat)
    requires ConnOk(s, fd) && (fd in s'.conns <==> fd in s.conns)
    requires fd in s'.poll.b.cbs ==> fd in s.poll.b.cbs
    requires fd in s.conns ==>
               && var c, c' := s.conns[fd], s'.conns[fd];
                  && c'.out.dead == c.out.dead && c'.builder == c.builder
                  && (c'.holder == c.holder || c'.holder.None? || (c'.holder.value.Thread? && c.builder.None?))
                  && (c'.holder.Some? && c'.holder.value.Thread? ==> IsAdding(s'.tasks, c'.holder.value.t, fd))
                  && (fd in s'.poll.dead <==> fd in s.poll.dead)
                  && (c'.holder == Some(Poller) ==> s'.poll.pc == s.poll.pc && !s'.stage.Outside?)
    requires fd in s'.poll.b.cbs ==> RemoversStay(s.tasks, s'.tasks, fd)
    ensures ConnOk(s', fd)
  {
    if fd in s.conns && s.conns[fd].out.dead && fd in s'.poll.b.cbs {
      var t :| t in s.tasks && IsRemover(s.tasks[t]) && s.tasks[t].fd == fd;
      assert t in s'.tasks && IsRemover(s'.tasks[t]) && s'.tasks[t].fd == fd;
    }
  }

  lemma SendStartConn(s: System, t: nat, w: WriteResult, fd: nat)
    requires ConnOk(s, fd) && TaskOk(s, t) && Enabled(s, SendStart(t, w))
    ensures ConnOk(Step(s, SendStart(t, w)), fd)
  {
    var a := SendStart(t, w);
    var s' := Step(s, a);
    CallEffect(s, a);
    if fd == s.tasks[t].fd && !FirstWrite(s, t, w).1 {
      assert s'.tasks[t] == MustRemove(fd, true);
    } else {
      ConnFrame(s, s', fd);
    }
  }

  lemma CloseMarksConn(s: System, t: nat, fd: nat)
    requires ConnOk(s, fd) && TaskOk(s, t) && Enabled(s, CloseMarks(t))
    ensures ConnOk(Step(s, CloseMarks(t)), fd)
  {
    var a := CloseMarks(t);
    var s' := Step(s, a);
    CallEffect(s, a);
    if fd == s.tasks[t].fd && !OutOf(s, t).dead {
      assert s'.tasks[t] == MustRemove(fd, false);
    } else {
      ConnFrame(s, s', fd);
    }
  }

  lemma AddsConn(s: System, a: Action, t: nat, fd: nat)
    requires ConnOk(s, fd) && TaskOk(s, t) && Enabled(s, a) && (a == Built(t) || a == SendAdds(t))
    ensures ConnOk(Step(s, a), fd)
  {
    CallEffect(s, a);
    if fd != s.tasks[t].fd {
      ConnFrame(s, Step(s, a), fd);
    }
  }

  lemma OpenConn(s: System, t: nat, fd0: nat, fd: nat)
    requires ConnOk(s, fd) && Enabled(s, Open(t, fd0))
    ensures ConnOk(Step(s, Open(t, fd0)), fd)
  {
    CallEffect(s, Open(t, fd0));
    if fd != fd0 {
      ConnFrame(s, Step(s, Open(t, fd0)), fd);
    }
  }

  lemma DestroyConn(s: System, fd0: nat, fd: nat)
    requires ConnOk(s, fd) && Enabled(s, Destroy(fd0))
    ensures ConnOk(Step(s, Destroy(fd0)), fd)
  {
    CallEffect(s, Destroy(fd0));
    if fd != fd0 {
      ConnFrame(s, Step(s, Destroy(fd0)), fd);
    }
  }

  /** Steps that call nothing, and change at most counters. */
  lemma PlainConn(s: System, a: Action, fd: nat)
    requires ConnOk(s, fd) && Enabled(s, a) && (InsideStep(a) || a.CallSend? || a.CallClose?)
    ensures ConnOk(Step(s, a), fd)
  {
    CallEffect(s, a);
    ConnFrame(s, Step(s, a), fd);
  }

  lemma RemoveStartsConn(s: System, t: nat, fd: nat)
    requires ConnOk(s, fd) && Enabled(s, RemoveStarts(t))
    ensures ConnOk(Step(s, RemoveStarts(t)), fd)
  {
    CallEffect(s, RemoveStarts(t));
    ConnFrame(s, Step(s, RemoveStarts(t)), fd);
  }

  lemma RemoveReturnsConn(s: System, t: nat, fd: nat)
    requires ConnOk(s, fd) && TaskOk(s, t) && Enabled(s, RemoveReturns(t))
    ensures ConnOk(Step(s, RemoveReturns(t)), fd)
  {
    CallEffect(s, RemoveReturns(t));
    assert fd == s.tasks[t].fd ==> fd !in Step(s, RemoveReturns(t)).poll.b.cbs;
    ConnFrame(s, Step(s, RemoveReturns(t)), fd);
  }

  lemma DiesConn(s: System, fd: nat)
    requires ConnOk(s, fd) && StageOk(s) && Enabled(s, Dies)
    ensures ConnOk(Step(s, Dies), fd)
  {
    CallEffect(s, Dies);
    if fd != s.poll.pc.fd {
      ConnFrame(s, Step(s, Dies), fd);
    }
  }

  lemma EnterConn(s: System, fd: nat)
    requires ConnOk(s, fd) && StageOk(s) && Enabled(s, Enter)
    ensures ConnOk(Step(s, Enter), fd)
  {
    CallEffect(s, Enter);
    if fd != s.poll.pc.fd {
      ConnFrame(s, Step(s, Enter), fd);
    }
  }

  lemma CallbackConn(s: System, a: Action, fd: nat)
    requires ConnOk(s, fd) && StageOk(s) && Enabled(s, a)
    requires a.ReadDone? || a.WriteDone? || a.Deletes? || a.Returns?
    ensures ConnOk(Step(s, a), fd)
  {
    CallEffect(s, a);
    ConnFrame(s, Step(s, a), fd);
  }

  lemma PollConn(s: System, p: PollMgr.Action, fd: nat)
    requires ConnOk(s, fd) && StageOk(s) && Enabled(s, Poll(p))
    ensures ConnOk(Step(s, Poll(p)), fd)
  {
    assert Step(s, Poll(p)).poll.b.cbs == s.poll.b.cbs && Step(s, Poll(p)).poll.dead == s.poll.dead;
  }

  lemma ThreadConn(s: System, a: Action, t: nat, fd: nat)
    requires ConnOk(s, fd) && TaskOk(s, t) && Enabled(s, a)
    requires CallingStep(a) && t == a.t
    ensures ConnOk(Step(s, a), fd)
  {
    if a.CloseMarks? {
      CloseMarksConn(s, t, fd);
    } else if a.SendStart? {
      SendStartConn(s, t, a.w, fd);
    } else if a.RemoveStarts? {
      RemoveStartsConn(s, t, fd);
    } else if a.RemoveReturns? {
      RemoveReturnsConn(s, t, fd);
    } else {
      AddsConn(s, a, t, fd);
    }
  }

  lemma PollerConn(s: System, a: Action, fd: nat)
    requires ConnOk(s, fd) && StageOk(s) && Enabled(s, a) && CallbackStep(a)
    ensures ConnOk(Step(s, a), fd)
  {
    if a.Enter? {
      EnterConn(s, fd);
    } else if a.Dies? {
      DiesConn(s, fd);
    } else {
      CallbackConn(s, a, fd);
    }
  }

  lemma ConnStep(s: System, a: Action, fd: nat)
    requires Inv(s) && Enabled(s, a)
    ensures ConnOk(Step(s, a), fd)
  {
    assert ConnOk(s, fd);
    if InsideStep(a) || a.CallSend? || a.CallClose? {
      PlainConn(s, a, fd);
    } else if CallingStep(a) {
      assert TaskOk(s, a.t);
      ThreadConn(s, a, a.t, fd);
    } else if a.Open? {
      OpenConn(s, a.t, a.fd, fd);
    } else if a.Destroy? {
      DestroyConn(s, a.fd, fd);
    } else if a.Poll? {
      PollConn(s, a.a, fd);
    } else {
      PollerConn(s, a, fd);
    }
  }

  // ---- the callback in progress ----

  /** Steps that leave the poll thread where it is, its connection's lock and flag alone, and
      do not unregister its descriptor. */
  lemma StageFrame(s: System, s': System)
    requires StageOk(s) && s'.stage == s.stage && s'.poll.pc == s.poll.pc
    requires s.poll.pc.Running? ==>
               var fd := s.poll.pc.fd;
               && (fd in s.poll.b.cbs <==> fd in s'.poll.b.cbs)
               && (!s.stage.Outside? && fd in s.conns ==>
                    fd in s'.conns && s'.conns[fd].holder == s.conns[fd].holder && s'.conns[fd].out.dead == s.conns[fd].out.dead)
    ensures StageOk(s')
  {
  }

  lemma ThreadStage(s: System, a: Action)
    requires Enabled(s, a) && StageOk(s)
    requires InsideStep(a) || a.CallSend? || a.SendStart? || a.CallClose? || a.CloseMarks? || a.RemoveStarts? || a.Destroy?
    ensures StageOk(Step(s, a))
  {
    assert Step(s, a).poll.b.cbs == s.poll.b.cbs && Step(s, a).poll.pc == s.poll.pc;
    StageFrame(s, Step(s, a));
  }

  lemma OpenStage(s: System, t: nat, fd: nat)
    requires Enabled(s, Open(t, fd)) && StageOk(s)
    ensures StageOk(Step(s, Open(t, fd)))
  {
    CallEffect(s, Open(t, fd));
    StageFrame(s, Step(s, Open(t, fd)));
  }

  lemma AddsStage(s: System, a: Action, t: nat)
    requires Enabled(s, a) && StageOk(s) && TaskOk(s, t) && (a == Built(t) || a == SendAdds(t))
    requires ConnOk(s, s.tasks[t].fd)
    ensures StageOk(Step(s, a))
  {
    var fd := s.tasks[t].fd;
    var s' := Step(s, a);
    assert s'.poll.b.cbs == s.poll.b.cbs + {fd} && s'.poll.pc == s.poll.pc;
    if !(s.poll.pc.Running? && s.poll.pc.fd == fd) {
      StageFrame(s, s');
    }
  }

  lemma RemoveReturnsStage(s: System, t: nat)
    requires Enabled(s, RemoveReturns(t)) && StageOk(s) && PollMgr.Inv(s.poll)
    ensures StageOk(Step(s, RemoveReturns(t)))
  {
    var fd := s.poll.woken[t];
    assert fd in s.poll.woken.Values;
    assert PollMgr.FdOk(s.poll, fd);
    assert Step(s, RemoveReturns(t)).poll.b.cbs == s.poll.b.cbs - {fd};
    StageFrame(s, Step(s, RemoveReturns(t)));
  }

  lemma PollStage(s: System, p: PollMgr.Action)
    requires Enabled(s, Poll(p)) && StageOk(s) && PollMgr.Inv(s.poll)
    ensures StageOk(Step(s, Poll(p)))
  {
    assert Step(s, Poll(p)).poll.b.cbs == s.poll.b.cbs;
  }

  lemma CallbackStage(s: System, a: Action)
    requires Enabled(s, a) && StageOk(s)
    requires CallbackStep(a)
    ensures StageOk(Step(s, a))
  {
  }

  lemma StageStep(s: System, a: Action)
    requires Inv(s) && Enabled(s, a)
    ensures StageOk(Step(s, a))
  {
    if a.Poll? {
      PollStage(s, a.a);
    } else if a.Open? {
      OpenStage(s, a.t, a.fd);
    } else if a.Built? || a.SendAdds? {
      assert TaskOk(s, a.t) && ConnOk(s, s.tasks[a.t].fd);
      AddsStage(s, a, a.t);
    } else if a.RemoveReturns? {
      RemoveReturnsStage(s, a.t);
    } else if CallbackStep(a) {
      CallbackStage(s, a);
    } else {
      ThreadStage(s, a);
    }
  }

  lemma NextKeeps(s: System, a: Action, s': System)
    requires Next(s, a, s') && Inv(s)
    ensures Inv(s') && PollMgr.Next(s.poll, PollCall(s, a), s'.poll)
  {
    ConnectionsAreDisciplined(s, a);
    PollMgr.StepKeeps(s.poll, PollCall(s, a));
    forall t: nat ensures TaskOk(s', t) {
      TaskStep(s, a, t);
    }
    forall fd: nat ensures ConnOk(s', fd) {
      ConnStep(s, a, fd);
    }
    StageStep(s, a);
  }

  lemma RunNext(ss: seq<System>, acts: seq<Action>, k: nat)
    requires Run(ss, acts) && k < |acts|
    ensures Next(ss[k], acts[k], ss[k + 1])
  {
  }

  lemma {:induction false} RunKeeps(ss: seq<System>, acts: seq<Action>, i: nat)
    requires Run(ss, acts) && i < |ss|
    ensures Inv(ss[i])
  {
    if i > 0 {
      var j := i - 1;
      RunKeeps(ss, acts, j);
      RunNext(ss, acts, j);
      NextKeeps(ss[j], acts[j], ss[j + 1]);
    }
  }

  // ---- theorems ----

  /** The poll manager's part of a run of connections. */
  function Polls(ss: seq<System>): (ps: seq<PollMgr.State>)
    ensures |ps| == |ss| && forall i :: 0 <= i < |ss| ==> ps[i] == ss[i].poll
  {
    seq(|ss|, i requires 0 <= i < |ss| => ss[i].poll)
  }

  function CallAt(s: System, a: Action): PollMgr.Action {
    if Guard(s, a) then PollCall(s, a) else PollMgr.Elsewhere
  }

  function PollCalls(ss: seq<System>, acts: seq<Action>): (cs: seq<PollMgr.Action>)
    requires |acts| <= |ss|
    ensures |cs| == |acts| && forall i :: 0 <= i < |acts| ==> cs[i] == CallAt(ss[i], acts[i])
  {
    seq(|acts|, i requires 0 <= i < |acts| => CallAt(ss[i], acts[i]))
  }

  /** Every run of connections is, step by step, a run of the poll manager whose callers keep
      its discipline. */
  lemma RunIsPollRun(ss: seq<System>, acts: seq<Action>)
    requires Run(ss, acts)
    ensures PollMgr.Run(Polls(ss), PollCalls(ss, acts))
  {
    var ps, cs := Polls(ss), PollCalls(ss, acts);
    forall i | 0 <= i < |cs| ensures PollMgr.Next(ps[i], cs[i], ps[i + 1]) {
      RunKeeps(ss, acts, i);
      RunNext(ss, acts, i);
      NextKeeps(ss[i], acts[i], ss[i + 1]);
    }
  }

  lemma ReturnIsEnd(s: System, t: nat)
    requires Inv(s) && Enabled(s, RemoveReturns(t))
    ensures t in s.poll.woken && s.poll.woken[t] == FdOf(s, t)
  {
    assert TaskOk(s, t);
  }

  /** After block_remove_fd has returned to a connection, no callback of its descriptor is
      running or will start until a new connection gets that descriptor. */
  lemma ClosedIsQuiet(ss: seq<System>, acts: seq<Action>, t: nat, i: nat, j: nat)
    requires Run(ss, acts) && i < |acts| && acts[i] == RemoveReturns(t) && At(ss[i], t)
    requires i < j < |ss| && forall k, u :: i < k < j ==> acts[k] != Open(u, FdOf(ss[i], t))
    ensures PollMgr.Quiet(ss[j].poll.pc, FdOf(ss[i], t)) && FdOf(ss[i], t) !in ss[j].poll.b.cbs
  {
    var fd := FdOf(ss[i], t);
    var ps, cs := Polls(ss), PollCalls(ss, acts);
    RunIsPollRun(ss, acts);
    RunKeeps(ss, acts, i);
    RunNext(ss, acts, i);
    ReturnIsEnd(ss[i], t);
    forall k | i < k < j ensures cs[k] != PollMgr.Reopen(fd) {
      RunNext(ss, acts, k);
      NotReopened(ss[k], acts[k], fd);
    }
    PollMgr.RemovedIsQuiet(ps, cs, t, i, j);
  }

  lemma NotReopened(s: System, a: Action, fd: nat)
    requires Enabled(s, a) && forall u :: a != Open(u, fd)
    ensures PollCall(s, a) != PollMgr.Reopen(fd)
  {
    if a.Open? {
      assert a != Open(a.t, fd);
    }
  }

  /** A callback is only ever chosen and run on a connection that exists and is complete:
      nobody destroys one the poll thread may still call. */
  lemma CallbacksFindTheirConnection(ss: seq<System>, acts: seq<Action>, i: nat)
    requires Run(ss, acts) && i < |ss| && (ss[i].poll.pc.Checked? || ss[i].poll.pc.Running?)
    ensures ss[i].poll.pc.fd in ss[i].conns && ss[i].conns[ss[i].poll.pc.fd].builder.None?
  {
    RunKeeps(ss, acts, i);
    assert ConnOk(ss[i], ss[i].poll.pc.fd);
  }

  /** A connection that is destroyed has no callback left, chosen or running. */
  lemma DestroyedIsUnregistered(ss: seq<System>, acts: seq<Action>, i: nat, fd: nat)
    requires Run(ss, acts) && i < |acts| && acts[i] == Destroy(fd)
    ensures fd !in ss[i].poll.b.cbs
    ensures !(ss[i].poll.pc.Checked? && ss[i].poll.pc.fd == fd) && !(ss[i].poll.pc.Running? && ss[i].poll.pc.fd == fd)
  {
    RunKeeps(ss, acts, i);
    RunNext(ss, acts, i);
    assert ConnOk(ss[i], fd);
  }

  /** The check in add_callback, that a descriptor has no callback or already this
      connection's, holds: a new connection finds none left over from an earlier one. */
  lemma NewConnectionFindsNoCallback(ss: seq<System>, acts: seq<Action>, i: nat, t: nat)
    requires Run(ss, acts) && i < |acts| && acts[i] == Built(t) && At(ss[i], t)
    ensures ss[i].tasks[t].fd !in ss[i].poll.b.cbs
  {
    RunKeeps(ss, acts, i);
    RunNext(ss, acts, i);
    assert TaskOk(ss[i], t) && ConnOk(ss[i], ss[i].tasks[t].fd);
  }
}
