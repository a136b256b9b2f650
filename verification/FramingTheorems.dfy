/** What holds in every run of a connection, for every split of the stream, any number of
    concurrent senders, and a manager that refuses messages. */
module FramingTheorems {
  import opened Basics
  import opened Wire
  import opened Channel
  import opened Framing

  // ---- send calls ----

  lemma CallFrame(s: State, s': State, t: nat, c: Call)
    requires CallOk(s, t, c) && s.put <= s'.put && s.wire <= s'.wire
    requires c.Active? || c.Removing? ==>
               s'.out.buf.Some? && s'.owner == s.owner && s'.put == s.put && (s.out.dead ==> s'.out.dead)
    ensures CallOk(s', t, c)
  {
    if HasIndex(c) {
      UpToGrows(s.put, s'.put, c.k + 1);
    }
  }

  /** A step after which call t is c, and all other calls are as before. */
  lemma OneCall(s: State, s': State, t: nat, c: Call)
    requires CallsInv(s) && s'.calls == s.calls[t := c]
    requires forall u :: u in s.calls && u != t ==> CallOk(s', u, s.calls[u])
    requires CallOk(s', t, c)
    requires HasIndex(c) ==> forall u :: u in s.calls && u != t && HasIndex(s.calls[u]) ==> s.calls[u].k != c.k
    ensures CallsInv(s')
  {
  }

  lemma SameCalls(s: State, s': State)
    requires CallsInv(s) && s'.calls == s.calls && s.put <= s'.put && s.wire <= s'.wire
    requires s.out.buf.Some? ==> s'.out.buf.Some? && s'.owner == s.owner && s'.put == s.put
    requires s.out.dead ==> s'.out.dead
    ensures CallsInv(s')
  {
    forall u | u in s.calls ensures CallOk(s', u, s.calls[u]) {
      CallFrame(s, s', u, s.calls[u]);
    }
  }

  lemma StartCalls(s: State, t: nat, w: WriteResult)
    requires WriterInv(s.out, s.put, s.wire) && CallsInv(s) && Enabled(s, Start(t, w)) && SendSize(s.calls[t].m)
    ensures CallsInv(Started(s, t, w))
  {
    var s' := Started(s, t, w);
    StartedWriter(s, t, w);
    var c := s'.calls[t];
    forall u | u in s.calls && u != t ensures CallOk(s', u, s.calls[u]) {
      assert CallOk(s, u, s.calls[u]);
      CallFrame(s, s', u, s.calls[u]);
    }
    UpToAll(s'.put);
    OneCall(s, s', t, c);
  }

  lemma EndCalls(s: State, t: nat, ok: bool)
    requires CallsInv(s) && t in s.calls && (s.calls[t].Active? || s.calls[t].Removing?)
    requires ok ==> s.wire == Flat(s.put)
    ensures
      var c := s.calls[t];
      CallsInv(s.(out := Release(s.out), calls := s.calls[t := Returned(c.m, ok, c.k)]))
  {
    var c := s.calls[t];
    var s' := s.(out := Release(s.out), calls := s.calls[t := Returned(c.m, ok, c.k)]);
    assert CallOk(s, t, c);
    UpToAll(s.put);
    forall u | u in s.calls && u != t ensures CallOk(s', u, s.calls[u]) {
      assert CallOk(s, u, s.calls[u]);
      CallFrame(s, s', u, s.calls[u]);
    }
    OneCall(s, s', t, s'.calls[t]);
  }

  lemma FinishKeeps(s: State, t: nat)
    requires WriterInv(s.out, s.put, s.wire) && CallsInv(s) && Enabled(s, Finish(t))
    ensures
      var s' := Step(s, Finish(t));
      WriterInv(s'.out, s'.put, s'.wire) && CallsInv(s')
  {
    assert CallOk(s, t, s.calls[t]);
    var ok := !s.out.dead && s.out.solong == s.out.sz;
    if ok {
      CompleteIsFlat(s.out, s.put, s.wire);
    }
    EndCalls(s, t, ok);
  }

  lemma RemovedKeeps(s: State, t: nat)
    requires WriterInv(s.out, s.put, s.wire) && CallsInv(s) && Enabled(s, Removed(t))
    ensures
      var s' := Step(s, Removed(t));
      WriterInv(s'.out, s'.put, s'.wire) && CallsInv(s')
  {
    assert CallOk(s, t, s.calls[t]);
    EndCalls(s, t, false);
  }

  lemma CallbackKeeps(s: State, w: WriteResult)
    requires WriterInv(s.out, s.put, s.wire) && CallsInv(s) && Enabled(s, Callback(w))
    ensures
      var s' := Step(s, Callback(w));
      WriterInv(s'.out, s'.put, s'.wire) && CallsInv(s') && s.wire <= s'.wire
  {
    if s.out.sz != 0 {
      WritePduKeeps(s.out, s.put, s.wire, w);
    }
    SameCalls(s, Step(s, Callback(w)));
  }

  lemma EnterCalls(s: State, t: nat, c: Call)
    requires CallsInv(s) && !HasIndex(c) && SendSize(c.m)
    ensures CallsInv(s.(calls := s.calls[t := c]))
  {
    var s' := s.(calls := s.calls[t := c]);
    forall u | u in s.calls && u != t ensures CallOk(s', u, s.calls[u]) {
      CallFrame(s, s', u, s.calls[u]);
    }
    OneCall(s, s', t, c);
  }

  lemma WriterStep(s: State, a: Action)
    requires WriterInv(s.out, s.put, s.wire) && CallsInv(s)
    requires Enabled(s, a) && (a.Start? ==> SendSize(s.calls[a.t].m))
    ensures
      var s' := Step(s, a);
      WriterInv(s'.out, s'.put, s'.wire) && CallsInv(s') && s.put <= s'.put && s.wire <= s'.wire
  {
    match a {
      case Enter(t, m) => EnterCalls(s, t, Waiting(m));
      case Refuse(t) => EnterCalls(s, t, Refused(s.calls[t].m));
      case Start(t, w) => StartedWriter(s, t, w); StartCalls(s, t, w);
      case Callback(w) => CallbackKeeps(s, w);
      case Finish(t) => FinishKeeps(s, t);
      case Removed(t) => RemovedKeeps(s, t);
      case SenderDies => SameCalls(s, Step(s, a));
      case Read(r1, r2, accepts) => SameCalls(s, Step(s, a));
      case ReaderDies => SameCalls(s, Step(s, a));
    }
  }

  lemma StepKeeps(s: State, a: Action)
    requires Inv(s) && Enabled(s, a) && (a.Start? ==> SendSize(s.calls[a.t].m))
    ensures Inv(Step(s, a))
  {
    WriterStep(s, a);
    var s' := Step(s, a);
    if a.Read? {
      ReadKeeps(s, a.r1, a.r2, a.accepts);
    } else if a.ReaderDies? {
    } else {
      ReaderFrame(s.put, s.wire, s.pos, s.inn, s.accepted, s'.put, s'.wire);
    }
  }

  lemma NextKeeps(s: State, a: Action, s': State)
    requires Next(s, a, s') && Inv(s)
    ensures Inv(s')
  {
    StepKeeps(s, a);
  }

  lemma {:induction false} RunKeeps(ss: seq<State>, acts: seq<Action>, i: nat)
    requires Run(ss, acts) && i < |ss|
    ensures Inv(ss[i])
  {
    if i > 0 {
      var j := i - 1;
      RunKeeps(ss, acts, j);
      assert Next(ss[j], acts[j], ss[j + 1]);
      NextKeeps(ss[j], acts[j], ss[j + 1]);
    }
  }

  // ---- theorems ----

  /** The messages accepted are a prefix of those put on the wire, in order and byte for
      byte, so each is accepted at most once. */
  lemma AcceptedArePrefix(ss: seq<State>, acts: seq<Action>, i: nat)
    requires Run(ss, acts) && i < |ss|
    ensures ss[i].accepted <= ss[i].put
  {
    RunKeeps(ss, acts, i);
  }

  /** A message is put on the wire by one call only, as that call's bytes behind their
      length; when send returned true every byte of it is on the wire. */
  lemma SendTrueMeansWritten(ss: seq<State>, acts: seq<Action>, i: nat, t: nat)
    requires Run(ss, acts) && i < |ss| && t in ss[i].calls && ss[i].calls[t].Returned?
    ensures
      var s, c := ss[i], ss[i].calls[t];
      && SendSize(c.m) && c.k < |s.put| && s.put[c.k] == SetLength(c.m)
      && (c.ok ==> Flat(s.put[..c.k]) + s.put[c.k] <= s.wire)
      && forall u :: u in s.calls && u != t && HasIndex(s.calls[u]) ==> s.calls[u].k != c.k
  {
    RunKeeps(ss, acts, i);
    var s, c := ss[i], ss[i].calls[t];
    assert CallOk(s, t, c);
    if c.ok {
      FlatAt(s.put, c.k);
      UpToIsFlat(s.put, c.k + 1);
      FlatNext(s.put, c.k);
    }
  }

  /** Nothing is lost on the way: what a live receiver took from the stream is the accepted
      messages and the part of the next one it holds, and once it has taken everything from
      an idle live sender it has accepted every message. */
  lemma NothingIsLost(ss: seq<State>, acts: seq<Action>, i: nat)
    requires Run(ss, acts) && i < |ss| && !ss[i].inn.dead
    ensures
      var s := ss[i];
      && s.pos <= |s.wire|
      && s.wire[..s.pos] == Flat(s.accepted) + (if s.inn.buf.Some? then s.inn.buf.value else [])
      && (!s.out.dead && s.out.buf.None? && s.pos == |s.wire| && s.inn.buf.None? ==> s.accepted == s.put)
  {
    RunKeeps(ss, acts, i);
    var s := ss[i];
    if !s.out.dead && s.out.buf.None? && s.pos == |s.wire| && s.inn.buf.None? {
      assert s.wire[..s.pos] == s.wire;
      SameBytesSameMessages(s.accepted, s.put);
    }
  }

  lemma SameBytesSameMessages(a: seq<Bytes>, s: seq<Bytes>)
    requires a <= s && Flat(a) == Flat(s) && forall p :: p in s ==> Framed(p)
    ensures a == s
  {
    if |a| < |s| {
      assert a == s[..|a|] && Framed(s[|a|]);
      FlatAt(s, |a|);
    }
  }

  // ---- who dies, and of what ----

  /** A step that kills the receiver: from outside, or a read that fails. */
  predicate KillsReader(s: State, a: Action)
    requires Enabled(s, a)
  {
    a.ReaderDies? || (a.Read? && (s.inn.buf.None? || s.inn.solong < s.inn.sz) && ReadFails(s.inn, a.r1, a.r2))
  }

  /** A step that kills the sender: from outside, or a write that fails for good. */
  predicate KillsSender(s: State, a: Action)
    requires Enabled(s, a)
  {
    match a
    case SenderDies => true
    case Start(_, w) => w.Failed?
    case Callback(w) => s.out.sz != 0 && s.out.solong < s.out.sz && w.Failed?
    case _ => false
  }

  lemma DeathStep(s: State, a: Action, s': State)
    requires Inv(s) && Next(s, a, s')
    ensures s'.inn.dead <==> s.inn.dead || KillsReader(s, a)
    ensures s'.out.dead <==> s.out.dead || KillsSender(s, a)
  {
    match a {
      case Read(r1, r2, accepts) =>
        if s.inn.dead {
          DeadReadCb(s.inn, r1, r2, accepts);
        } else {
          ReadCbOutcome(s.inn, r1, r2, accepts);
        }
      case Callback(w) => WriteCbDiesIff(s.out, w);
      case Start(t, w) =>
        assert CallOk(s, t, s.calls[t]);
        WritePduFailsIff(Loaded(s.out, s.calls[t].m), w);
      case _ =>
    }
  }

  ghost predicate ReaderKilled(ss: seq<State>, acts: seq<Action>, i: nat)
    requires Run(ss, acts) && i <= |acts|
  {
    exists k :: 0 <= k < i && Enabled(ss[k], acts[k]) && KillsReader(ss[k], acts[k])
  }

  ghost predicate SenderKilled(ss: seq<State>, acts: seq<Action>, i: nat)
    requires Run(ss, acts) && i <= |acts|
  {
    exists k :: 0 <= k < i && Enabled(ss[k], acts[k]) && KillsSender(ss[k], acts[k])
  }

  /** In every run an end is dead exactly when something killed it: closing from outside, or a
      system call that failed; an EAGAIN, a short write, a message in pieces or a refusal of
      the manager never does. */
  lemma {:induction false} DeadIffKilled(ss: seq<State>, acts: seq<Action>, i: nat)
    requires Run(ss, acts) && i < |ss|
    ensures ss[i].inn.dead <==> ReaderKilled(ss, acts, i)
    ensures ss[i].out.dead <==> SenderKilled(ss, acts, i)
  {
    if i > 0 {
      var j := i - 1;
      DeadIffKilled(ss, acts, j);
      RunKeeps(ss, acts, j);
      assert Next(ss[j], acts[j], ss[j + 1]);
      DeathStep(ss[j], acts[j], ss[j + 1]);
    }
  }

  /** A receiver that nothing killed has lost nothing: what it took is the accepted messages and
      the part of the next one it holds; once it has taken everything from a sender that
      nothing killed and that is idle, it has accepted every message. */
  lemma UnkilledLosesNothing(ss: seq<State>, acts: seq<Action>, i: nat)
    requires Run(ss, acts) && i < |ss| && !ReaderKilled(ss, acts, i)
    ensures
      var s := ss[i];
      && s.pos <= |s.wire|
      && s.wire[..s.pos] == Flat(s.accepted) + (if s.inn.buf.Some? then s.inn.buf.value else [])
      && (!SenderKilled(ss, acts, i) && s.out.buf.None? && s.pos == |s.wire| && s.inn.buf.None? ==> s.accepted == s.put)
  {
    DeadIffKilled(ss, acts, i);
    NothingIsLost(ss, acts, i);
  }

  /** A send that failed or was refused leaves a dead connection. */
  ghost predicate FailureMeansDead(s: State) {
    forall t :: t in s.calls && ((s.calls[t].Returned? && !s.calls[t].ok) || s.calls[t].Refused?) ==> s.out.dead
  }

  lemma FailureStep(s: State, a: Action, s': State)
    requires Inv(s) && Next(s, a, s') && FailureMeansDead(s)
    ensures FailureMeansDead(s')
  {
    DeathStep(s, a, s');
    if a.Finish? || a.Removed? {
      assert CallOk(s, a.t, s.calls[a.t]);
    }
  }

  lemma {:induction false} RunFailures(ss: seq<State>, acts: seq<Action>, i: nat)
    requires Run(ss, acts) && i < |ss|
    ensures FailureMeansDead(ss[i])
  {
    if i > 0 {
      var j := i - 1;
      RunFailures(ss, acts, j);
      RunKeeps(ss, acts, j);
      assert Next(ss[j], acts[j], ss[j + 1]);
      FailureStep(ss[j], acts[j], ss[j + 1]);
    }
  }

  /** So on a connection that nothing killed every send that came back returned true. */
  lemma SendSucceeds(ss: seq<State>, acts: seq<Action>, i: nat, t: nat)
    requires Run(ss, acts) && i < |ss| && !SenderKilled(ss, acts, i) && t in ss[i].calls
    ensures !ss[i].calls[t].Refused? && !ss[i].calls[t].Removing?
    ensures ss[i].calls[t].Returned? ==> ss[i].calls[t].ok
  {
    DeadIffKilled(ss, acts, i);
    RunFailures(ss, acts, i);
    RunKeeps(ss, acts, i);
    assert CallOk(ss[i], t, ss[i].calls[t]);
  }
}
