/** Shutting the pool down: every accepted job is taken once, nobody deadlocks on the
    bounded queue, and the destructor comes to its end. */
module ThrPoolTheorems {
  import opened Fifo
  import opened ThrPool

  // ---- counting pills ----

  lemma {:induction false} PillCountConcat(a: seq<Item>, b: seq<Item>)
    ensures PillCount(a + b) == PillCount(a) + PillCount(b)
  {
    if b == [] {
      assert a + b == a;
    } else {
      var n := |b| - 1;
      PillCountConcat(a, b[..n]);
      assert (a + b)[..|a| + n] == a + b[..n];
    }
  }

  /** Jobs first, then p pills. */
  lemma {:induction false} PillsAtEnd(s: seq<Item>, p: nat)
    requires PillsLast(s, p)
    ensures PillCount(s) == p
  {
    if s != [] {
      PillsAtEnd(s[..|s| - 1], if p == 0 then 0 else p - 1);
    }
  }

  lemma LastIsPill(s: Pool)
    requires QueueInv(s) && s.pills > 0
    ensures s.f.items == [] || s.f.items[|s.f.items| - 1].Pill?
  {
    if s.f.items != [] {
      assert s.enqueued[|s.enqueued| - 1] == s.f.items[|s.f.items| - 1];
    }
  }

  /** Pills are either in the queue or have ended one worker each. */
  lemma PillsConserved(s: Pool)
    requires QueueInv(s) && PillsInv(s)
    ensures |s.exited| + PillCount(s.f.items) == s.pills
  {
    PillsAtEnd(s.enqueued, s.pills);
    PillCountConcat(s.taken, s.f.items);
  }

  // ---- which jobs get in ----

  /** What addJob answers. */
  function AddResult(s: Pool, t: nat, id: nat, pick: nat): EnqResult {
    Enq(s.f, t, Job(id), s.blocking, pick).1
  }

  /** In every run: a job is turned away exactly when the pool does not block and 100 jobs per
      worker are queued, its thread waits exactly when the pool blocks and that many are, and
      otherwise it is queued last.  A pool of no workers queues without limit. */
  lemma AddJobAnswers(sz: nat, blocking: bool, ss: seq<Pool>, acts: seq<Step>, i: nat)
    requires ThrPool.Run(sz, blocking, ss, acts) && i < |acts| && acts[i].AddJob?
    ensures
      var (s, s', a) := (ss[i], ss[i + 1], acts[i]);
      var r, full := AddResult(s, a.t, a.id, a.pick), sz > 0 && |s.f.items| == 100 * sz;
      && (r == Rejected <==> !blocking && full)
      && (r == Asleep <==> blocking && full)
      && s'.f.items == (if full then s.f.items else s.f.items + [Job(a.id)])
      && s'.enqueued == (if full then s.enqueued else s.enqueued + [Job(a.id)])
  {
    ThrPool.RunKeeps(sz, blocking, ss, acts, i);
    ThrPool.RunNext(sz, blocking, ss, acts, i);
    StaysAsMade(sz, blocking, ss, acts, i);
    EnqAccepts(ss[i].f, acts[i].t, Job(acts[i].id), blocking, acts[i].pick);
  }

  /** A worker takes the oldest item whenever there is one: a job it then runs, a pill is its
      end; with nothing to take it sleeps. */
  lemma TakeOutcome(s: Pool, w: nat, pick: nat)
    requires Enabled(s, Take(w, pick))
    ensures
      var s' := Do(s, Take(w, pick));
      && (s.f.items == [] ==> w in s'.f.sleepC && s'.taken == s.taken)
      && (s.f.items != [] ==>
           && s.f.items == [s.f.items[0]] + s'.f.items
           && s'.taken == s.taken + [s.f.items[0]] && s'.takers == s.takers + [w]
           && s'.running == (if s.f.items[0].Job? then s.running + {w} else s.running)
           && s'.exited == (if s.f.items[0].Pill? then s.exited + {w} else s.exited))
  {
    DeqHandsOut(s.f, w, pick);
  }

  lemma {:induction false} StaysAsMade(sz: nat, blocking: bool, ss: seq<Pool>, acts: seq<Step>, i: nat)
    requires ThrPool.Run(sz, blocking, ss, acts) && i < |ss|
    ensures ss[i].blocking == blocking
  {
    if i > 0 {
      StaysAsMade(sz, blocking, ss, acts, i - 1);
      ThrPool.RunNext(sz, blocking, ss, acts, i - 1);
    }
  }

  // ---- the end state ----

  lemma AllExited(s: Pool)
    requires ThreadsInv(s) && s.joined == s.sz
    ensures s.exited == Workers(s.sz)
  {
    forall w: nat ensures w in s.exited <==> w < s.sz {
      assert ThreadOk(s, w);
    }
  }

  /** When the destructor is through, every worker has exited on exactly one pill, and the
      queue is empty with every accepted job taken, provided there was a worker at all;
      a pool of no workers leaves all its jobs in the queue. */
  lemma DoneMeansDrained(s: Pool)
    requires PoolInv(s) && Done(s)
    ensures s.exited == Workers(s.sz) && s.running == {}
    ensures forall w: nat :: w < s.sz ==> PillsOf(w, s.taken, s.takers) == 1
    ensures s.f.items == [] <==> s.sz > 0 || s.enqueued == []
    ensures s.sz > 0 ==> s.taken == s.enqueued
    ensures s.sz == 0 ==> s.taken == [] && s.f.items == s.enqueued
  {
    AllExited(s);
    PillsConserved(s);
    forall w: nat ensures w !in s.running && (w < s.sz ==> PillsOf(w, s.taken, s.takers) == 1) {
      assert ThreadOk(s, w) && OnePill(w, s.exited, s.taken, s.takers);
    }
    if s.sz > 0 {
      LastIsPill(s);
    } else {
      NoWorkersTakeNothing(s);
    }
  }

  lemma NoWorkersTakeNothing(s: Pool)
    requires PillsInv(s)
    ensures s.taken != [] ==> s.sz > 0
  {
    if s.taken != [] {
      assert s.takers[0] < s.sz;
    }
  }

  lemma RunDrains(sz: nat, blocking: bool, ss: seq<Pool>, acts: seq<Step>, i: nat)
    requires ThrPool.Run(sz, blocking, ss, acts) && i < |ss| && Done(ss[i])
    ensures
      var s := ss[i];
      && |s.taken| == |s.takers|
      && (forall w: nat :: w < sz ==> w in s.exited && PillsOf(w, s.taken, s.takers) == 1)
      && (s.f.items == [] <==> sz > 0 || s.enqueued == [])
      && s.taken + s.f.items == s.enqueued
  {
    ThrPool.RunKeeps(sz, blocking, ss, acts, i);
    DoneMeansDrained(ss[i]);
  }

  // ---- progress ----

  function Awake(s: Pool): set<nat> {
    Workers(s.sz) - s.running - s.exited - s.f.sleepC
  }

  function DestructorAwake(s: Pool): nat {
    if s.pills < s.sz && s.sz !in s.f.sleepP then 1 else 0
  }

  /** How much is left to do once the destructor has begun. */
  function Remaining(s: Pool): nat
    requires s.pills <= s.sz && s.joined <= s.sz
  {
    10 * (s.sz - s.pills) + 5 * |s.f.items| + 2 * |s.running| + |Awake(s)| + DestructorAwake(s) + (s.sz - s.joined)
  }

  lemma AwakeAfterTake(s: Pool, w: nat, pick: nat)
    requires Enabled(s, Take(w, pick))
    ensures Awake(DoTake(s, w, pick)) == Awake(s) - {w} && w in Awake(s)
  {
    var s' := DoTake(s, w, pick);
    forall u: nat ensures u in Awake(s') <==> u in Awake(s) && u != w {
    }
  }

  /** A worker that finds the queue empty falls asleep. */
  lemma TakerFallsAsleep(s: Pool, w: nat, pick: nat)
    requires Enabled(s, Take(w, pick)) && s.f.items == []
    ensures
      var s' := DoTake(s, w, pick);
      && |Awake(s')| == |Awake(s)| - 1
      && s' == s.(f := s'.f) && s'.f.items == [] && s'.f.sleepP == s.f.sleepP
  {
    AwakeAfterTake(s, w, pick);
  }

  /** One that finds a job runs it; a pill is its end. */
  lemma TakerRuns(s: Pool, w: nat, pick: nat)
    requires Enabled(s, Take(w, pick)) && s.f.items != []
    ensures
      var s' := DoTake(s, w, pick);
      && |Awake(s')| == |Awake(s)| - 1 && |s'.running| <= |s.running| + 1
      && s'.pills == s.pills && s'.joined == s.joined && s'.sz == s.sz
      && |s'.f.items| == |s.f.items| - 1
  {
    AwakeAfterTake(s, w, pick);
    if s.f.items[0].Job? {
      AddOne(s.running, w);
    }
  }

  lemma TakeShrinks(s: Pool, w: nat, pick: nat)
    requires s.pills <= s.sz && s.joined <= s.sz && Enabled(s, Take(w, pick))
    ensures
      var s' := DoTake(s, w, pick);
      s'.pills <= s'.sz && s'.joined <= s'.sz && Remaining(s') < Remaining(s)
  {
    if s.f.items == [] {
      TakerFallsAsleep(s, w, pick);
    } else {
      TakerRuns(s, w, pick);
    }
  }

  lemma ReturnShrinks(s: Pool, w: nat)
    requires ThreadsInv(s) && Enabled(s, Return(w))
    ensures
      var s' := Do(s, Return(w));
      s'.pills <= s'.sz && s'.joined <= s'.sz && Remaining(s') < Remaining(s)
  {
    AwakeAfterReturn(s, w);
    AddOne(Awake(s), w);
    AfterReturn(s, w);
  }

  lemma AfterReturn(s: Pool, w: nat)
    requires Enabled(s, Return(w))
    ensures
      var s' := Do(s, Return(w));
      s' == s.(running := s'.running) && |s'.running| == |s.running| - 1
  {
  }

  lemma AwakeAfterReturn(s: Pool, w: nat)
    requires ThreadsInv(s) && Enabled(s, Return(w))
    ensures Awake(Do(s, Return(w))) == Awake(s) + {w}
  {
    assert ThreadOk(s, w);
  }

  lemma PillShrinks(s: Pool, pick: nat)
    requires ThreadsInv(s) && Enabled(s, PutPill(pick))
    ensures
      var s' := Do(s, PutPill(pick));
      s'.pills <= s'.sz && s'.joined <= s'.sz && Remaining(s') < Remaining(s)
  {
    AwakeAfterPill(s, pick);
    AfterPill(s, pick);
    if HasRoom(s.f) && s.f.sleepC != {} {
      AddOne(Awake(s), pick);
    }
  }

  /** The destructor puts its pill, or falls asleep on the full queue. */
  lemma AfterPill(s: Pool, pick: nat)
    requires Enabled(s, PutPill(pick))
    ensures
      var s' := Do(s, PutPill(pick));
      && s'.running == s.running && s'.joined == s.joined && s'.sz == s.sz
      && (if HasRoom(s.f) then s'.pills == s.pills + 1 && |s'.f.items| == |s.f.items| + 1
          else s'.pills == s.pills && s'.f.items == s.f.items && s.sz in s'.f.sleepP)
  {
  }

  /** A pill that finds room wakes a sleeping worker, if there is one. */
  lemma AwakeAfterPill(s: Pool, pick: nat)
    requires ThreadsInv(s) && Enabled(s, PutPill(pick))
    ensures Awake(Do(s, PutPill(pick))) == if HasRoom(s.f) && s.f.sleepC != {} then Awake(s) + {pick} else Awake(s)
  {
    if HasRoom(s.f) && s.f.sleepC != {} {
      assert ThreadOk(s, pick);
    }
  }

  /** During the shutdown every step but a spurious wakeup brings the end nearer. */
  lemma StepShrinks(s: Pool, a: Step)
    requires ThreadsInv(s) && s.destroying && Enabled(s, a) && !a.Wakeup?
    ensures
      var s' := Do(s, a);
      s'.pills <= s'.sz && s'.joined <= s'.sz && Remaining(s') < Remaining(s)
  {
    match a {
      case Take(w, pick) => TakeShrinks(s, w, pick);
      case Return(w) => ReturnShrinks(s, w);
      case PutPill(pick) => PillShrinks(s, pick);
      case Join => assert Awake(Do(s, a)) == Awake(s);
    }
  }

  lemma PickOne(sleepers: set<nat>) returns (pick: nat)
    ensures Picks(sleepers, pick)
  {
    if sleepers != {} {
      pick :| pick in sleepers;
    } else {
      pick := 0;
    }
  }

  /** With no worker awake or running, all have exited or the queue is empty. */
  lemma AllAsleep(s: Pool)
    requires QueueInv(s) && ThreadsInv(s) && s.running == {} && Awake(s) == {}
    ensures s.f.items == [] || s.exited == Workers(s.sz)
  {
    forall w: nat ensures w in Workers(s.sz) <==> w in s.exited || w in s.f.sleepC {
      assert ThreadOk(s, w);
      assert w !in Awake(s);
    }
    forall w: nat ensures w !in s.f.wokenC {
      assert ThreadOk(s, w) && w !in Awake(s);
    }
    assert s.f.wokenC == {};
    if s.f.sleepC == {} {
      assert s.exited == Workers(s.sz);
    }
  }

  lemma ExitedAll(s: Pool)
    requires QueueInv(s) && PillsInv(s) && s.pills <= s.sz && s.exited == Workers(s.sz)
    ensures s.pills == s.sz
  {
    PillsConserved(s);
  }

  /** Until the destructor is through, some thread can go on: there is no deadlock on the
      bounded queue, as long as handlers return. */
  lemma NotStuck(s: Pool) returns (a: Step)
    requires PoolInv(s) && s.destroying && !Done(s)
    ensures Enabled(s, a) && !a.Wakeup?
  {
    if s.running != {} {
      var w :| w in s.running;
      a := Return(w);
    } else if Awake(s) != {} {
      var w :| w in Awake(s);
      var pick := PickOne(s.f.sleepP);
      a := Take(w, pick);
    } else {
      AllAsleep(s);
      a := DestructorGoesOn(s);
    }
  }

  lemma DestructorGoesOn(s: Pool) returns (a: Step)
    requires PoolInv(s) && s.destroying && !Done(s)
    requires s.f.items == [] || s.exited == Workers(s.sz)
    requires s.running == {} && Awake(s) == {}
    ensures Enabled(s, a) && !a.Wakeup?
  {
    if s.pills < s.sz {
      DestructorHasRoom(s);
      var pick := PickOne(s.f.sleepC);
      a := PutPill(pick);
    } else {
      PillsConserved(s);
      if s.f.items == [] {
        SameSize(s.exited, s.sz, s);
      }
      assert s.joined in s.exited;
      a := Join;
    }
  }

  lemma SameSize(x: set<nat>, n: nat, s: Pool)
    requires ThreadsInv(s) && x == s.exited && n == s.sz && |x| == n
    ensures x == Workers(n)
  {
    forall w | w in x ensures w in Workers(n) {
      assert ThreadOk(s, w);
    }
    SubsetOfSameSize(x, Workers(n));
  }

  lemma SubsetOfSameSize(x: set<nat>, y: set<nat>)
    requires x <= y && |x| == |y|
    ensures x == y
  {
    assert y == x + (y - x);
    assert |x + (y - x)| == |x| + |y - x|;
    assert y - x == {};
  }

  /** A destructor asleep in enq has been promised a slot, or the queue is full. */
  lemma DestructorHasRoom(s: Pool)
    requires PoolInv(s) && s.destroying && s.pills < s.sz
    requires s.f.items == [] || s.exited == Workers(s.sz)
    ensures s.sz !in s.f.sleepP
  {
    if s.exited == Workers(s.sz) {
      ExitedAll(s);
    }
    if s.sz in s.f.sleepP {
      NoProducerWoken(s);
    }
  }

  lemma NoProducerWoken(s: Pool)
    requires ThreadsInv(s) && s.destroying && s.sz in s.f.sleepP && s.f.sleepP !! s.f.wokenP
    ensures s.f.wokenP == {}
  {
    forall w: nat ensures w !in s.f.wokenP {
      assert ThreadOk(s, w);
    }
  }

  /** A stretch of the shutdown without spurious wakeups. */
  ghost predicate Shutdown(ss: seq<Pool>, acts: seq<Step>) {
    && |ss| == |acts| + 1 && PoolInv(ss[0]) && ss[0].destroying
    && forall i {:trigger ThrPool.Next(ss[i], acts[i], ss[i + 1])} ::
         0 <= i < |acts| ==> ThrPool.Next(ss[i], acts[i], ss[i + 1]) && !acts[i].Wakeup?
  }

  lemma StaysDestroying(s: Pool, a: Step)
    requires s.destroying
    ensures Do(s, a).destroying
  {
  }

  lemma ShutdownShrinks(s: Pool, a: Step, s': Pool)
    requires ThreadsInv(s) && s.destroying && ThrPool.Next(s, a, s') && !a.Wakeup?
    ensures s'.destroying && s'.pills <= s'.sz && s'.joined <= s'.sz && Remaining(s') < Remaining(s)
  {
    StaysDestroying(s, a);
    StepShrinks(s, a);
  }

  lemma ShutdownStep(s: Pool, a: Step, s': Pool)
    requires PoolInv(s) && s.destroying && ThrPool.Next(s, a, s') && !a.Wakeup?
    ensures PoolInv(s') && s'.destroying && Remaining(s') < Remaining(s)
  {
    ShutdownShrinks(s, a, s');
    ThrPool.NextKeeps(s, a, s');
  }

  lemma ShutdownNext(ss: seq<Pool>, acts: seq<Step>, k: nat)
    requires Shutdown(ss, acts) && k < |acts|
    ensures ThrPool.Next(ss[k], acts[k], ss[k + 1]) && !acts[k].Wakeup?
  {
  }

  lemma {:induction false} ShutdownSteps(ss: seq<Pool>, acts: seq<Step>, k: nat)
    requires Shutdown(ss, acts) && k < |ss|
    ensures PoolInv(ss[k]) && ss[k].destroying && k + Remaining(ss[k]) <= Remaining(ss[0])
  {
    if k > 0 {
      var j := k - 1;
      ShutdownSteps(ss, acts, j);
      ShutdownNext(ss, acts, j);
      ShutdownStep(ss[j], acts[j], ss[j + 1]);
    }
  }

  /** The shutdown takes a bounded number of steps, and one that can go no further is done,
      with nothing left in the queue if there was a worker. */
  lemma ShutdownEnds(ss: seq<Pool>, acts: seq<Step>)
    requires Shutdown(ss, acts)
    ensures ss[0].pills <= ss[0].sz && ss[0].joined <= ss[0].sz && |acts| <= Remaining(ss[0])
    ensures (forall a: Step :: Enabled(ss[|acts|], a) ==> a.Wakeup?) ==> Done(ss[|acts|])
  {
    ShutdownSteps(ss, acts, |acts|);
    ShutdownSteps(ss, acts, 0);
    if !Done(ss[|acts|]) {
      var a := NotStuck(ss[|acts|]);
    }
  }
}
