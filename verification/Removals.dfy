/** Removals come to their end.  While a thread is on its way through block_remove_fd some step
    towards that end is possible, unless the program has aborted, and the poll thread wakes
    the thread after a bounded number of its own steps. */
module Removals {
  import opened Basics
  import opened Channel
  import opened Connections
  import opened SenderWakeups
  import opened ConnectionFrames
  import FT = FramingTheorems
  import PollMgr

  /** `VERIFY(!dead_)` in write_cb fails. */
  predicate Aborts(s: System) {
    InCallback(s) && s.stage.Inside? && s.poll.pc.write && s.conns[s.poll.pc.fd].out.dead
  }

  /** The poll thread's steps, in its loop and in callbacks. */
  predicate PollerMoves(a: Action) {
    a.Poll? || CallbackStep(a)
  }

  // ---- never stuck ----

  /** Every connection was made at some step and lives since. */
  lemma {:induction false} MadeBefore(ss: seq<System>, acts: seq<Action>, k: nat, fd: nat) returns (i: nat)
    requires Run(ss, acts) && k < |ss| && fd in ss[k].conns
    ensures Lives(ss, acts, fd, i, k)
  {
    var j := k - 1;
    RunNext(ss, acts, j);
    if acts[j].Open? && acts[j].fd == fd {
      i := j;
    } else {
      ThereBefore(ss[j], acts[j], fd);
      i := MadeBefore(ss, acts, j, fd);
    }
  }

  lemma ThereBefore(s: System, a: Action, fd: nat)
    requires Enabled(s, a) && fd in Step(s, a).conns && !(a.Open? && a.fd == fd)
    ensures fd in s.conns && a != Destroy(fd)
  {
    if Touched(s, a) != Some(fd) {
      OtherConn(s, a, fd);
    }
  }

  /** A live connection's buffer can be given to write. */
  lemma AlwaysWritable(ss: seq<System>, acts: seq<Action>, k: nat, fd: nat)
    requires Run(ss, acts) && k < |ss| && fd in ss[k].conns && !ss[k].conns[fd].out.dead && !AboutToDie(ss[k], fd)
    ensures ss[k].conns[fd].out.sz != 0 ==> Writable(ss[k].conns[fd].out, WouldBlock)
  {
    var i := MadeBefore(ss, acts, k, fd);
    var fs, fa, link := OutgoingIsFraming(ss, acts, fd, i, k);
    FT.RunKeeps(fs, fa, |fa|);
  }

  /** What the callback in progress does next; at its entry, what lets it in. */
  lemma CallbackGoesOn(ss: seq<System>, acts: seq<Action>, k: nat) returns (a: Action)
    requires Run(ss, acts) && k < |ss| && ss[k].poll.pc.Running? && !Aborts(ss[k])
    ensures Enabled(ss[k], a) && (CallbackStep(a) || a.SendAdds?)
  {
    var s := ss[k];
    var fd := s.poll.pc.fd;
    RunKeeps(ss, acts, k);
    assert ConnOk(s, fd);
    match s.stage {
      case Outside =>
        a := if Free(s, fd) then Enter else SendAdds(s.conns[fd].holder.value.t);
      case Inside =>
        if s.poll.pc.write {
          AlwaysWritable(ss, acts, k, fd);
          a := WriteDone(WouldBlock);
        } else {
          a := ReadDone(true);
        }
      case Dropping => a := Deletes;
      case Failing => a := Deletes;
      case Dying => a := Dies;
      case Leaving(_) => a := Returns;
    }
  }

  /** What the loop does next while a thread waits in block_remove_fd. */
  lemma LoopGoesOn(s: System, t: nat) returns (a: Action)
    requires Inv(s) && t in s.poll.waiting && !s.poll.pc.Running?
    ensures Enabled(s, a) && a.Poll?
  {
    a := match s.poll.pc
      case Top => Poll(PollMgr.Broadcast)
      case BeforeSnapshot => Poll(PollMgr.Snapshot)
      case Selecting(_, _) => Poll(PollMgr.SelectReturns([], [], true))
      case Dispatch(_, _) => Poll(PollMgr.Serve)
      case Checked(_, _, _, _) => Poll(PollMgr.Call);
  }

  /** In every reachable state in which a thread still has a removal before it: it can move, or
      the poll thread can, or the thread that keeps the poll thread from a lock. */
  lemma RemovalGoesOn(ss: seq<System>, acts: seq<Action>, k: nat, t: nat) returns (a: Action)
    requires Run(ss, acts) && k < |ss| && t in ss[k].tasks && IsRemover(ss[k].tasks[t]) && !Aborts(ss[k])
    ensures Enabled(ss[k], a) && (a == RemoveStarts(t) || a == RemoveReturns(t) || PollerMoves(a) || a.SendAdds?)
    ensures ss[k].tasks[t].MustRemove? ==> a == RemoveStarts(t)
    ensures t in ss[k].poll.woken ==> a == RemoveReturns(t)
  {
    var s := ss[k];
    RunKeeps(ss, acts, k);
    assert TaskOk(s, t);
    if s.tasks[t].MustRemove? {
      a := RemoveStarts(t);
    } else if t in s.poll.woken {
      a := RemoveReturns(t);
    } else if s.poll.pc.Running? {
      a := CallbackGoesOn(ss, acts, k);
    } else {
      a := LoopGoesOn(s, t);
    }
  }

  // ---- and not for ever ----

  /** Steps before the poll thread is back at the broadcast, apart from what select lists. */
  function ToBroadcast(s: System): nat {
    match s.poll.pc
    case Top => 0
    case BeforeSnapshot => 3
    case Selecting(_, _) => 2
    case Dispatch(rs, ws) => 8 * |rs + ws| + 1
    case Checked(_, _, rs, ws) => 8 * |rs + ws| + 8
    case Running(_, _, rs, ws) => 8 * |rs + ws| + StageRank(s.stage)
  }

  function StageRank(g: Stage): nat {
    match g
    case Outside => 7
    case Inside => 6
    case Failing => 5
    case Dropping => 4
    case Dying => 4
    case Leaving(_) => 3
  }

  /** How many descriptors a return of select lists. */
  function Listed(a: Action): nat {
    if a.Poll? && a.a.SelectReturns? then |a.a.rs + a.a.ws| else 0
  }

  predicate IsSelect(a: Action) {
    a.Poll? && a.a.SelectReturns?
  }

  lemma LoopLowers(s: System, p: PollMgr.Action)
    requires Enabled(s, Poll(p)) && !p.Broadcast?
    ensures ToBroadcast(Step(s, Poll(p))) < ToBroadcast(s) + 8 * Listed(Poll(p))
    ensures Step(s, Poll(p)).poll.waiting == s.poll.waiting
  {
  }

  lemma CallbackLowers(s: System, a: Action)
    requires Enabled(s, a) && CallbackStep(a)
    ensures ToBroadcast(Step(s, a)) < ToBroadcast(s) && Step(s, a).poll.waiting == s.poll.waiting
  {
    WaitsFrame(s, a);
  }

  /** The steps of all others leave the poll thread where it is. */
  lemma OthersKeep(s: System, a: Action)
    requires Enabled(s, a) && !PollerMoves(a)
    ensures ToBroadcast(Step(s, a)) == ToBroadcast(s)
  {
    CallEffect(s, a);
    OthersKeepStage(s, a);
  }

  lemma OthersKeepStage(s: System, a: Action)
    requires Enabled(s, a) && !PollerMoves(a)
    ensures Step(s, a).stage == s.stage
  {
  }

  /** The broadcast wakes every thread that waits. */
  lemma BroadcastEnds(s: System, t: nat)
    requires Inv(s) && t in s.poll.waiting && Enabled(s, Poll(PollMgr.Broadcast))
    ensures t !in Step(s, Poll(PollMgr.Broadcast)).poll.waiting && t in Step(s, Poll(PollMgr.Broadcast)).poll.woken
  {
    assert TaskOk(s, t);
  }

  // ---- whole runs ----

  /** Among steps i to j: those of the poll thread, what select listed, and returns of select. */
  function PollerSteps(acts: seq<Action>, i: nat, j: nat): nat
    requires i <= j <= |acts|
    decreases j
  {
    if i == j then 0 else PollerSteps(acts, i, j - 1) + if PollerMoves(acts[j - 1]) then 1 else 0
  }

  function AllListed(acts: seq<Action>, i: nat, j: nat): nat
    requires i <= j <= |acts|
    decreases j
  {
    if i == j then 0 else AllListed(acts, i, j - 1) + Listed(acts[j - 1])
  }

  function Selects(acts: seq<Action>, i: nat, j: nat): nat
    requires i <= j <= |acts|
    decreases j
  {
    if i == j then 0 else Selects(acts, i, j - 1) + if IsSelect(acts[j - 1]) then 1 else 0
  }

  /** Thread t is in the wait of block_remove_fd from state i to state j. */
  ghost predicate WaitsThrough(ss: seq<System>, t: nat, i: nat, j: nat) {
    j < |ss| && forall k :: i <= k <= j ==> t in ss[k].poll.waiting
  }

  /** The poll thread has not yet been in select since. */
  predicate BeforeSelect(pc: PollMgr.Pc) {
    pc.BeforeSnapshot? || pc.Selecting?
  }

  lemma WaitingStep(s: System, a: Action, t: nat)
    requires Inv(s) && Enabled(s, a) && t in s.poll.waiting && t in Step(s, a).poll.waiting
    ensures ToBroadcast(Step(s, a)) + (if PollerMoves(a) then 1 else 0) <= ToBroadcast(s) + 8 * Listed(a)
    ensures IsSelect(a) ==> BeforeSelect(s.poll.pc) && !BeforeSelect(Step(s, a).poll.pc)
    ensures BeforeSelect(Step(s, a).poll.pc) ==> BeforeSelect(s.poll.pc)
  {
    if a.Poll? {
      if a.a.Broadcast? {
        BroadcastEnds(s, t);
      } else {
        LoopLowers(s, a.a);
      }
    } else if CallbackStep(a) {
      CallbackLowers(s, a);
    } else {
      OthersKeep(s, a);
      CallEffect(s, a);
    }
  }

  /** However many threads come and go: while a thread waits, select returns once at most, and
      the poll thread makes a bounded number of steps before it wakes the thread. */
  lemma {:induction false} RemovalIsBounded(ss: seq<System>, acts: seq<Action>, t: nat, i: nat, j: nat)
    requires Run(ss, acts) && i <= j && WaitsThrough(ss, t, i, j)
    ensures PollerSteps(acts, i, j) + ToBroadcast(ss[j]) <= ToBroadcast(ss[i]) + 8 * AllListed(acts, i, j)
    ensures Selects(acts, i, j) + (if BeforeSelect(ss[j].poll.pc) then 1 else 0) <= 1
    decreases j
  {
    if i < j {
      var k := j - 1;
      RemovalIsBounded(ss, acts, t, i, k);
      RunKeeps(ss, acts, k);
      RunNext(ss, acts, k);
      WaitingStep(ss[k], acts[k], t);
    }
  }
}
