/** The poll loop and the threads that register and remove descriptors, as steps over its
    lock-protected regions.  Removing a descriptor waits until no callback for it can be
    running or about to start. */
module PollMgr {
  datatype Flag = ReadOnly | WriteOnly | ReadWrite

  /** Watched descriptors, descriptors with a callback, the pending flag, and the number of
      wakeup bytes in the pipe. */
  datatype Tables = Tables(rd: set<nat>, wr: set<nat>, cbs: set<nat>, pending: bool, pipe: nat)

  function Watch(b: Tables, fd: nat, flag: Flag): Tables {
    b.(rd := if flag.WriteOnly? then b.rd else b.rd + {fd},
       wr := if flag.ReadOnly? then b.wr else b.wr + {fd},
       pipe := b.pipe + 1)
  }

  function Unwatch(b: Tables, fd: nat, flag: Flag): Tables {
    b.(rd := if flag.WriteOnly? then b.rd else b.rd - {fd},
       wr := if flag.ReadOnly? then b.wr else b.wr - {fd},
       pipe := if flag.ReadWrite? then b.pipe + 1 else b.pipe)
  }

  function AddCallback(b: Tables, fd: nat, flag: Flag): Tables {
    Watch(b, fd, flag).(cbs := b.cbs + {fd})
  }

  function DelCallback(b: Tables, fd: nat, flag: Flag): Tables {
    var b1 := Unwatch(b, fd, flag);
    if fd in b1.rd || fd in b1.wr then b1 else b1.(cbs := b.cbs - {fd})
  }

  /** block_remove_fd up to its wait. */
  function BeginRemove(b: Tables, fd: nat): Tables {
    Unwatch(b, fd, ReadWrite).(pending := true)
  }

  /** Where the poll thread is; rs and ws are the descriptors still to be served.  `write`
      says whether it is write_cb that was chosen, or read_cb. */
  datatype Pc =
    | Top
    | BeforeSnapshot
    | Selecting(snapR: set<nat>, snapW: set<nat>)
    | Dispatch(rs: seq<nat>, ws: seq<nat>)
    | Checked(fd: nat, write: bool, rs: seq<nat>, ws: seq<nat>)
    | Running(fd: nat, write: bool, rs: seq<nat>, ws: seq<nat>)

  /** waiting: threads in the wait of block_remove_fd, with their descriptor; woken: those
      the broadcast woke but which have not gone on.  dead: descriptors whose connection has
      set its flag.  removed: those for which a removal has returned. */
  datatype State = State(
    b: Tables, pc: Pc, waiting: map<nat, nat>, woken: map<nat, nat>, dead: set<nat>, removed: set<nat>)

  datatype Action =
    | Broadcast
    | Snapshot
    | SelectReturns(rs: seq<nat>, ws: seq<nat>, drained: bool)
    | Serve
    | Call
    | CallbackReturns
    | Add(fd: nat, flag: Flag)
    | Del(fd: nat, flag: Flag)
    | Die(fd: nat)
    | RemoveBegins(t: nat, fd: nat)
    | RemoveEnds(t: nat)
    | Reopen(fd: nat)
    | Elsewhere                       // a step of some thread outside the poll manager

  function Init(): State {
    State(Tables({}, {}, {}, false, 0), Top, map[], map[], {}, {})
  }

  /** What the locks, waits and loops of the program allow by themselves. */
  predicate Possible(s: State, a: Action) {
    match a
    case Broadcast => s.pc.Top?
    case Snapshot => s.pc.BeforeSnapshot?
    case SelectReturns(rs, ws, drained) =>
      && s.pc.Selecting?
      && (forall fd :: fd in rs ==> fd in s.pc.snapR) && (forall fd :: fd in ws ==> fd in s.pc.snapW)
      && (drained ==> s.b.pipe > 0)
    case Serve => s.pc.Dispatch?
    case Call => s.pc.Checked?
    case CallbackReturns => s.pc.Running?
    case RemoveBegins(t, fd) => t !in s.waiting && t !in s.woken
    case RemoveEnds(t) => t in s.woken
    case _ => true
  }

  /** What the callers have to keep to: callbacks are added only before, and a removal begins
      only after, the dead flag is set; callbacks are deleted only by the descriptor's own
      callbacks; a descriptor number is used again only when no removal of it is under way. */
  predicate Disciplined(s: State, a: Action) {
    match a
    case Add(fd, flag) => fd !in s.dead
    case Del(fd, flag) => s.pc.Running? && s.pc.fd == fd
    case RemoveBegins(t, fd) => fd in s.dead
    case Reopen(fd) => fd in s.dead && fd !in s.waiting.Values && fd !in s.woken.Values
    case _ => true
  }

  predicate Enabled(s: State, a: Action) {
    Possible(s, a) && Disciplined(s, a)
  }

  function ServeNext(s: State): Pc
    requires s.pc.Dispatch?
  {
    var rs, ws := s.pc.rs, s.pc.ws;
    if rs != [] then (if rs[0] in s.b.cbs then Checked(rs[0], false, rs[1..], ws) else Dispatch(rs[1..], ws))
    else if ws != [] then (if ws[0] in s.b.cbs then Checked(ws[0], true, rs, ws[1..]) else Dispatch(rs, ws[1..]))
    else Top
  }

  function Step(s: State, a: Action): State
    requires Possible(s, a)
  {
    match a
    case Broadcast =>
      if s.b.pending
      then s.(b := s.b.(pending := false), pc := BeforeSnapshot, waiting := map[], woken := s.woken + s.waiting)
      else s.(pc := BeforeSnapshot)
    case Snapshot => s.(pc := Selecting(s.b.rd, s.b.wr))
    case SelectReturns(rs, ws, drained) =>
      s.(b := s.b.(pipe := if drained then s.b.pipe - 1 else s.b.pipe),
         pc := if rs == [] && ws == [] then Top else Dispatch(rs, ws))
    case Serve => s.(pc := ServeNext(s))
    case Call => s.(pc := Running(s.pc.fd, s.pc.write, s.pc.rs, s.pc.ws))
    case CallbackReturns => s.(pc := Dispatch(s.pc.rs, s.pc.ws))
    case Add(fd, flag) => s.(b := AddCallback(s.b, fd, flag))
    case Del(fd, flag) => s.(b := DelCallback(s.b, fd, flag))
    case Die(fd) => s.(dead := s.dead + {fd})
    case RemoveBegins(t, fd) => s.(b := BeginRemove(s.b, fd), waiting := s.waiting[t := fd])
    case RemoveEnds(t) =>
      var fd := s.woken[t];
      s.(b := s.b.(cbs := s.b.cbs - {fd}), woken := s.woken - {t}, removed := s.removed + {fd})
    case Reopen(fd) => s.(dead := s.dead - {fd}, removed := s.removed - {fd})
    case Elsewhere => s
  }

  ghost predicate Next(s: State, a: Action, s': State) {
    Enabled(s, a) && s' == Step(s, a)
  }

  ghost predicate Run(ss: seq<State>, acts: seq<Action>) {
    && |ss| == |acts| + 1 && ss[0] == Init()
    && forall i {:trigger Next(ss[i], acts[i], ss[i + 1])} :: 0 <= i < |acts| ==> Next(ss[i], acts[i], ss[i + 1])
  }

  // ---- invariants ----

  /** No callback for fd is running, chosen, or going to be chosen in this round. */
  predicate Quiet(pc: Pc, fd: nat) {
    match pc
    case Top => true
    case BeforeSnapshot => true
    case Selecting(r, w) => fd !in r && fd !in w
    case Dispatch(rs, ws) => fd !in rs && fd !in ws
    case Checked(f, _, rs, ws) => fd != f && fd !in rs && fd !in ws
    case Running(f, _, rs, ws) => fd != f && fd !in rs && fd !in ws
  }

  /** From the start of a removal on, fd is dead and unwatched; once the poll thread has
      passed its broadcast, fd is quiet as well; at the end it has no callback. */
  predicate FdOk(s: State, fd: nat) {
    && (fd in s.waiting.Values || fd in s.woken.Values || fd in s.removed ==>
         fd in s.dead && fd !in s.b.rd && fd !in s.b.wr)
    && (fd in s.woken.Values || fd in s.removed ==> Quiet(s.pc, fd))
    && (fd in s.removed ==> fd !in s.b.cbs)
  }

  ghost predicate Inv(s: State) {
    && (forall fd: nat :: FdOk(s, fd))
    && (s.waiting != map[] ==> s.b.pending)
    && (s.b.pending && (s.pc.BeforeSnapshot? || s.pc.Selecting?) ==> s.b.pipe > 0)
    && (s.pc.Checked? ==> s.pc.fd in s.b.cbs)
  }

  lemma FdStep(s: State, a: Action, fd: nat)
    requires Inv(s) && Enabled(s, a)
    ensures FdOk(Step(s, a), fd)
  {
    assert FdOk(s, fd);
    match a {
      case Broadcast =>
        assert fd in (s.woken + s.waiting).Values ==> fd in s.woken.Values || fd in s.waiting.Values;
      case RemoveBegins(t, f) =>
        assert fd in s.waiting[t := f].Values ==> fd in s.waiting.Values || fd == f;
      case RemoveEnds(t) =>
        assert fd in (s.woken - {t}).Values ==> fd in s.woken.Values;
        assert s.woken[t] in s.woken.Values;
        assert FdOk(s, s.woken[t]);
      case Serve =>
      case _ =>
    }
  }

  lemma StepKeeps(s: State, a: Action)
    requires Inv(s) && Enabled(s, a)
    ensures Inv(Step(s, a))
  {
    forall fd: nat ensures FdOk(Step(s, a), fd) {
      FdStep(s, a, fd);
    }
    if a.RemoveEnds? {
      assert s.woken[a.t] in s.woken.Values;
      assert FdOk(s, s.woken[a.t]);
    }
  }

  lemma NextKeeps(s: State, a: Action, s': State)
    requires Next(s, a, s') && Inv(s)
    ensures Inv(s')
  {
    StepKeeps(s, a);
  }

  lemma RunNext(ss: seq<State>, acts: seq<Action>, k: nat)
    requires Run(ss, acts) && k < |acts|
    ensures Next(ss[k], acts[k], ss[k + 1])
  {
  }

  lemma {:induction false} RunKeeps(ss: seq<State>, acts: seq<Action>, i: nat)
    requires Run(ss, acts) && i < |ss|
    ensures Inv(ss[i])
  {
    if i > 0 {
      var j := i - 1;
      RunKeeps(ss, acts, j);
      RunNext(ss, acts, j);
      NextKeeps(ss[j], acts[j], ss[j + 1]);
    }
  }

  // ---- theorems ----

  lemma {:induction false} StaysRemoved(ss: seq<State>, acts: seq<Action>, fd: nat, i: nat, j: nat)
    requires Run(ss, acts) && i <= j < |ss| && fd in ss[i].removed
    requires forall k :: i <= k < j ==> acts[k] != Reopen(fd)
    ensures fd in ss[j].removed
    decreases j
  {
    if i < j {
      var k := j - 1;
      StaysRemoved(ss, acts, fd, i, k);
      RunNext(ss, acts, k);
    }
  }

  /** After block_remove_fd(fd) has returned, no callback for fd is running or will start,
      until the descriptor is opened again; for any number of concurrent removers. */
  lemma RemovedIsQuiet(ss: seq<State>, acts: seq<Action>, t: nat, i: nat, j: nat)
    requires Run(ss, acts) && i < |acts| && acts[i] == RemoveEnds(t) && t in ss[i].woken
    requires i < j < |ss| && forall k :: i < k < j ==> acts[k] != Reopen(ss[i].woken[t])
    ensures Quiet(ss[j].pc, ss[i].woken[t]) && ss[i].woken[t] !in ss[j].b.cbs
  {
    var fd := ss[i].woken[t];
    RunNext(ss, acts, i);
    assert fd in ss[i + 1].removed;
    StaysRemoved(ss, acts, fd, i + 1, j);
    RunKeeps(ss, acts, j);
    assert FdOk(ss[j], fd);
  }

  /** The poll thread never calls through a callback that vanished after it looked. */
  lemma CheckedCallbackStays(ss: seq<State>, acts: seq<Action>, i: nat)
    requires Run(ss, acts) && i < |ss| && ss[i].pc.Checked?
    ensures ss[i].pc.fd in ss[i].b.cbs
  {
    RunKeeps(ss, acts, i);
  }

  /** No remover is left behind: while one waits, the poll thread's next broadcast is due and
      wakes all of them, and a select it may be blocked in has a wakeup byte to return on. */
  lemma RemoversAreWoken(ss: seq<State>, acts: seq<Action>, i: nat)
    requires Run(ss, acts) && i < |ss| && ss[i].waiting != map[]
    ensures ss[i].b.pending
    ensures ss[i].pc.Selecting? ==> Enabled(ss[i], SelectReturns([], [], true))
    ensures ss[i].pc.Top? ==>
              forall t :: t in ss[i].waiting ==> t in Step(ss[i], Broadcast).woken && Step(ss[i], Broadcast).woken[t] == ss[i].waiting[t]
  {
    RunKeeps(ss, acts, i);
  }

  // ---- who is served ----

  /** What the loop over the listed descriptors looks at next, and for which callback. */
  predicate NextIs(pc: Pc, fd: nat, write: bool) {
    && pc.Dispatch?
    && if write then pc.rs == [] && pc.ws != [] && pc.ws[0] == fd else pc.rs != [] && pc.rs[0] == fd
  }

  /** fd is still to be looked at in this round. */
  predicate Remains(pc: Pc, fd: nat, write: bool) {
    (pc.Dispatch? || pc.Checked? || pc.Running?) && if write then fd in pc.ws else fd in pc.rs
  }

  /** In step j the loop looked at fd; if fd had a callback then, that is the one it goes on to. */
  ghost predicate LookedAt(ss: seq<State>, acts: seq<Action>, fd: nat, write: bool, j: nat) {
    && j < |acts| < |ss| && acts[j] == Serve && NextIs(ss[j].pc, fd, write)
    && (if fd in ss[j].b.cbs then ss[j + 1].pc.Checked? && ss[j + 1].pc.fd == fd && ss[j + 1].pc.write == write
        else ss[j + 1].pc.Dispatch? || ss[j + 1].pc.Top?)
  }

  lemma RemainsStep(s: State, a: Action, fd: nat, write: bool)
    requires Possible(s, a) && Remains(s.pc, fd, write)
    ensures Remains(Step(s, a).pc, fd, write) || (a == Serve && NextIs(s.pc, fd, write))
  {
  }

  /** The round begins with every watched descriptor; each descriptor that select lists stays on
      the list until it has been looked at, so at the end of the round all of them have been,
      readers before writers. */
  lemma {:induction false} ListedIsLookedAt(ss: seq<State>, acts: seq<Action>, i: nat, k: nat, fd: nat, write: bool)
    requires Run(ss, acts) && i < k < |ss| && acts[i].SelectReturns?
    requires if write then fd in acts[i].ws else fd in acts[i].rs
    ensures Remains(ss[k].pc, fd, write) || exists j :: i < j < k && LookedAt(ss, acts, fd, write, j)
    decreases k
  {
    RunNext(ss, acts, k - 1);
    if k > i + 1 {
      var l := k - 1;
      ListedIsLookedAt(ss, acts, i, l, fd, write);
      if Remains(ss[l].pc, fd, write) {
        RemainsStep(ss[l], acts[l], fd, write);
        if !Remains(ss[k].pc, fd, write) {
          assert LookedAt(ss, acts, fd, write, l);
        }
      }
    }
  }

  lemma RoundIsComplete(ss: seq<State>, acts: seq<Action>, i: nat, k: nat, fd: nat, write: bool)
    requires Run(ss, acts) && i < k < |ss| && acts[i].SelectReturns?
    requires if write then fd in acts[i].ws else fd in acts[i].rs
    requires ss[k].pc.Top?
    ensures exists j :: i < j < k && LookedAt(ss, acts, fd, write, j)
  {
    ListedIsLookedAt(ss, acts, i, k, fd, write);
  }

  /** select is asked about everything that is watched at that moment. */
  lemma SelectIsAskedForAll(s: State)
    requires Possible(s, Snapshot)
    ensures Step(s, Snapshot).pc.Selecting? && Step(s, Snapshot).pc.snapR == s.b.rd && Step(s, Snapshot).pc.snapW == s.b.wr
  {
  }

  /** A callback that was chosen is called: nothing else moves the poll thread on. */
  lemma ChosenIsCalled(s: State, a: Action)
    requires Possible(s, a) && s.pc.Checked?
    ensures Step(s, a).pc == s.pc || (a == Call && Step(s, a).pc == Running(s.pc.fd, s.pc.write, s.pc.rs, s.pc.ws))
  {
  }
}
