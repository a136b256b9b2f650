/** The thread pool on top of the bounded queue: adders, workers, and a destructor that
    feeds every worker a poison pill and joins them. */
module ThrPool {
  import opened Fifo

  datatype Item = Job(id: nat) | Pill

  /** Workers are threads 0 to sz - 1, the destructor's thread is sz, adders are above.
      Item i taken from the queue went to worker takers[i]. */
  datatype Pool = Pool(
    sz: nat, blocking: bool, f: Fifo<Item>,
    running: set<nat>, exited: set<nat>,
    destroying: bool, pills: nat, joined: nat,
    enqueued: seq<Item>, taken: seq<Item>, takers: seq<nat>)

  datatype Step =
    | AddJob(t: nat, id: nat, pick: nat)
    | Take(w: nat, pick: nat)
    | Return(w: nat)
    | Destroy
    | PutPill(pick: nat)
    | Join
    | Wakeup(t: nat)

  function Start(sz: nat, blocking: bool): Pool {
    Pool(sz, blocking, Empty(100 * sz), {}, {}, false, 0, 0, [], [], [])
  }

  predicate Enabled(s: Pool, a: Step) {
    match a
    case AddJob(t, id, pick) => t > s.sz && !s.destroying && t !in s.f.sleepP && Picks(s.f.sleepC, pick)
    case Take(w, pick) =>
      w < s.sz && w !in s.running && w !in s.exited && w !in s.f.sleepC && Picks(s.f.sleepP, pick)
    case Return(w) => w in s.running
    // no other thread uses the pool any more or is blocked on it
    case Destroy => !s.destroying && s.f.sleepP == {} && s.f.wokenP == {}
    case PutPill(pick) => s.destroying && s.pills < s.sz && s.sz !in s.f.sleepP && Picks(s.f.sleepC, pick)
    case Join => s.destroying && s.pills == s.sz && s.joined < s.sz && s.joined in s.exited
    case Wakeup(t) => true
  }

  function DoTake(s: Pool, w: nat, pick: nat): Pool {
    var (f, r) := Deq(s.f, w, pick);
    match r
    case None => s.(f := f)
    case Some(item) =>
      var s1 := s.(f := f, taken := s.taken + [item], takers := s.takers + [w]);
      if item.Pill? then s1.(exited := s.exited + {w}) else s1.(running := s.running + {w})
  }

  function DoEnq(s: Pool, t: nat, item: Item, blocking: bool, pick: nat): Pool {
    var (f, r) := Enq(s.f, t, item, blocking, pick);
    if r == Accepted then s.(f := f, enqueued := s.enqueued + [item], pills := if item.Pill? then s.pills + 1 else s.pills)
    else s.(f := f)
  }

  function Do(s: Pool, a: Step): Pool {
    match a
    case AddJob(t, id, pick) => DoEnq(s, t, Job(id), s.blocking, pick)
    case Take(w, pick) => DoTake(s, w, pick)
    case Return(w) => s.(running := s.running - {w})
    case Destroy => s.(destroying := true)
    case PutPill(pick) => DoEnq(s, s.sz, Pill, true, pick)
    case Join => s.(joined := s.joined + 1)
    case Wakeup(t) => s.(f := Spurious(s.f, t))
  }

  ghost predicate Next(s: Pool, a: Step, s': Pool) {
    Enabled(s, a) && s' == Do(s, a)
  }

  ghost predicate Run(sz: nat, blocking: bool, ss: seq<Pool>, acts: seq<Step>) {
    && |ss| == |acts| + 1 && ss[0] == Start(sz, blocking)
    && forall i {:trigger Next(ss[i], acts[i], ss[i + 1])} :: 0 <= i < |acts| ==> Next(ss[i], acts[i], ss[i + 1])
  }

  /** The destructor has joined every worker. */
  predicate Done(s: Pool) {
    s.destroying && s.pills == s.sz && s.joined == s.sz
  }

  // ---- invariants ----

  function PillCount(s: seq<Item>): nat {
    if s == [] then 0 else PillCount(s[..|s| - 1]) + if s[|s| - 1].Pill? then 1 else 0
  }

  function PillsOf(w: nat, taken: seq<Item>, takers: seq<nat>): nat
    requires |taken| == |takers|
  {
    if taken == [] then 0
    else
      var n := |taken| - 1;
      PillsOf(w, taken[..n], takers[..n]) + if taken[n].Pill? && takers[n] == w then 1 else 0
  }

  function Workers(sz: nat): (ws: set<nat>)
    ensures forall w: nat :: w in ws <==> w < sz
    ensures |ws| == sz
  {
    if sz == 0 then {} else Workers(sz - 1) + {sz - 1}
  }

  /** The queue is what was accepted and not yet taken: jobs first, then the pills. */
  ghost predicate QueueInv(s: Pool) {
    && Inv(s.f) && s.f.max == 100 * s.sz
    && s.taken + s.f.items == s.enqueued
    && PillsLast(s.enqueued, s.pills)
  }

  /** Who sleeps, runs or has exited; from destruction on only the destructor enqueues. */
  predicate ThreadOk(s: Pool, w: nat) {
    && (w in s.f.sleepC || w in s.f.wokenC ==> w < s.sz && w !in s.running && w !in s.exited)
    && (w in s.running ==> w < s.sz && w !in s.exited)
    && (w in s.exited ==> w < s.sz)
    && (s.destroying && (w in s.f.sleepP || w in s.f.wokenP) ==> w == s.sz)
  }

  ghost predicate ThreadsInv(s: Pool) {
    && (forall w: nat :: ThreadOk(s, w))
    && s.pills <= s.sz && s.joined <= s.sz
    && (!s.destroying ==> s.pills == 0 && s.joined == 0)
    && (forall k :: 0 <= k < s.joined ==> k in s.exited)
  }

  /** Worker w took one pill if it has exited, and none before. */
  predicate OnePill(w: nat, exited: set<nat>, taken: seq<Item>, takers: seq<nat>)
    requires |taken| == |takers|
  {
    PillsOf(w, taken, takers) == if w in exited then 1 else 0
  }

  /** Every exited worker took one pill, and no other pill was taken. */
  ghost predicate PillsInv(s: Pool) {
    && |s.taken| == |s.takers| && PillCount(s.taken) == |s.exited|
    && (forall i :: 0 <= i < |s.takers| ==> s.takers[i] < s.sz)
    && forall w: nat :: OnePill(w, s.exited, s.taken, s.takers)
  }

  ghost predicate PoolInv(s: Pool) {
    QueueInv(s) && ThreadsInv(s) && PillsInv(s)
  }

  /** Jobs come before pills. */
  ghost predicate PillsLast(s: seq<Item>, pills: nat) {
    pills <= |s| && forall i :: 0 <= i < |s| ==> (s[i].Pill? <==> i >= |s| - pills)
  }

  lemma EnqQueue(s: Pool, t: nat, item: Item, blocking: bool, pick: nat)
    requires QueueInv(s) && t !in s.f.sleepP && Picks(s.f.sleepC, pick) && (item.Job? ==> s.pills == 0)
    ensures QueueInv(DoEnq(s, t, item, blocking, pick))
  {
    EnqKeeps(s.f, t, item, blocking, pick);
    assert s.taken + (s.f.items + [item]) == s.enqueued + [item];
  }

  lemma TakeQueue(s: Pool, w: nat, pick: nat)
    requires QueueInv(s) && w !in s.f.sleepC && Picks(s.f.sleepP, pick)
    ensures QueueInv(DoTake(s, w, pick))
  {
    DeqKeeps(s.f, w, pick);
    if s.f.items != [] {
      assert s.taken + [s.f.items[0]] + s.f.items[1..] == s.taken + s.f.items;
    }
  }

  lemma QueueStep(s: Pool, a: Step)
    requires QueueInv(s) && Enabled(s, a) && (a.AddJob? ==> s.pills == 0)
    ensures QueueInv(Do(s, a))
  {
    match a {
      case AddJob(t, id, pick) => EnqQueue(s, t, Job(id), s.blocking, pick);
      case Take(w, pick) => TakeQueue(s, w, pick);
      case PutPill(pick) => EnqQueue(s, s.sz, Pill, true, pick);
      case Wakeup(t) => SpuriousKeeps(s.f, t);
      case Return(w) =>
      case Destroy =>
      case Join =>
    }
  }

  lemma ThreadsStep(s: Pool, a: Step)
    requires ThreadsInv(s) && Enabled(s, a)
    ensures ThreadsInv(Do(s, a))
  {
    forall w: nat ensures ThreadOk(Do(s, a), w) {
      assert ThreadOk(s, w);
    }
    if a.Take? {
      assert ThreadOk(s, a.w);
    }
  }

  lemma PillAppended(taken: seq<Item>, takers: seq<nat>, item: Item, t: nat, w: nat)
    requires |taken| == |takers|
    ensures PillCount(taken + [item]) == PillCount(taken) + if item.Pill? then 1 else 0
    ensures PillsOf(w, taken + [item], takers + [t]) == PillsOf(w, taken, takers) + if item.Pill? && t == w then 1 else 0
  {
    assert (taken + [item])[..|taken|] == taken && (takers + [t])[..|taken|] == takers;
  }

  lemma OnePillStep(w: nat, exited: set<nat>, taken: seq<Item>, takers: seq<nat>, item: Item, t: nat)
    requires |taken| == |takers| && OnePill(w, exited, taken, takers) && t !in exited
    ensures OnePill(w, if item.Pill? then exited + {t} else exited, taken + [item], takers + [t])
  {
    PillAppended(taken, takers, item, t, w);
  }

  lemma PillsStep(s: Pool, a: Step)
    requires PillsInv(s) && Enabled(s, a)
    ensures PillsInv(Do(s, a))
  {
    if a.Take? && s.f.items != [] {
      var s' := DoTake(s, a.w, a.pick);
      forall w: nat ensures OnePill(w, s'.exited, s'.taken, s'.takers) {
        OnePillStep(w, s.exited, s.taken, s.takers, s.f.items[0], a.w);
      }
      PillAppended(s.taken, s.takers, s.f.items[0], a.w, 0);
      AddOne(s.exited, a.w);
    }
  }

  lemma NextKeeps(s: Pool, a: Step, s': Pool)
    requires Next(s, a, s') && PoolInv(s)
    ensures PoolInv(s') && s'.sz == s.sz
  {
    QueueStep(s, a);
    ThreadsStep(s, a);
    PillsStep(s, a);
  }

  lemma StartIsGood(sz: nat, blocking: bool)
    ensures PoolInv(Start(sz, blocking))
  {
  }

  lemma RunNext(sz: nat, blocking: bool, ss: seq<Pool>, acts: seq<Step>, k: nat)
    requires Run(sz, blocking, ss, acts) && k < |acts|
    ensures Next(ss[k], acts[k], ss[k + 1])
  {
  }

  lemma {:induction false} RunKeeps(sz: nat, blocking: bool, ss: seq<Pool>, acts: seq<Step>, i: nat)
    requires Run(sz, blocking, ss, acts) && i < |ss|
    ensures PoolInv(ss[i]) && ss[i].sz == sz
  {
    if i > 0 {
      var j := i - 1;
      RunKeeps(sz, blocking, ss, acts, j);
      RunNext(sz, blocking, ss, acts, j);
      NextKeeps(ss[j], acts[j], ss[j + 1]);
    } else {
      StartIsGood(sz, blocking);
    }
  }
}
