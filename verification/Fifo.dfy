/** The bounded queue: each passage through its lock as a step, with the threads asleep on
    its two condition variables and those woken but not yet back in the lock. */
module Fifo {
  import opened Basics

  datatype Fifo<T> = Fifo(
    items: seq<T>, max: nat,
    sleepC: set<nat>, wokenC: set<nat>,
    sleepP: set<nat>, wokenP: set<nat>)

  datatype EnqResult = Accepted | Asleep | Rejected

  function Empty<T>(max: nat): Fifo<T> {
    Fifo([], max, {}, {}, {}, {})
  }

  /** pthread_cond_signal wakes one sleeper, if there is any. */
  predicate Picks(sleepers: set<nat>, pick: nat) {
    sleepers != {} ==> pick in sleepers
  }

  predicate HasRoom<T>(f: Fifo<T>) {
    f.max == 0 || |f.items| < f.max
  }

  function SignalNonEmpty<T>(f: Fifo<T>, pick: nat): Fifo<T> {
    if f.sleepC == {} then f else f.(sleepC := f.sleepC - {pick}, wokenC := f.wokenC + {pick})
  }

  function SignalHasSpace<T>(f: Fifo<T>, pick: nat): Fifo<T> {
    if f.sleepP == {} then f else f.(sleepP := f.sleepP - {pick}, wokenP := f.wokenP + {pick})
  }

  /** One passage of thread t through enq: newly arrived, or woken and trying again. */
  function Enq<T>(f: Fifo<T>, t: nat, e: T, blocking: bool, pick: nat): (Fifo<T>, EnqResult) {
    var g := f.(wokenP := f.wokenP - {t});
    if HasRoom(f) then (SignalNonEmpty(g.(items := g.items + [e]), pick), Accepted)
    else if blocking then (g.(sleepP := g.sleepP + {t}), Asleep)
    else (g, Rejected)
  }

  /** One passage of thread t through deq. */
  function Deq<T>(f: Fifo<T>, t: nat, pick: nat): (Fifo<T>, Option<T>) {
    var g := f.(wokenC := f.wokenC - {t});
    if f.items == [] then (g.(sleepC := g.sleepC + {t}), None)
    else
      var h := g.(items := g.items[1..]);
      (if h.max != 0 && |h.items| < h.max then SignalHasSpace(h, pick) else h, Some(f.items[0]))
  }

  /** A wakeup nobody signalled. */
  function Spurious<T>(f: Fifo<T>, t: nat): Fifo<T> {
    if t in f.sleepC then f.(sleepC := f.sleepC - {t}, wokenC := f.wokenC + {t})
    else if t in f.sleepP then f.(sleepP := f.sleepP - {t}, wokenP := f.wokenP + {t})
    else f
  }

  // ---- no wakeup is lost ----

  predicate ConsumersInv<T>(f: Fifo<T>) {
    f.sleepC !! f.wokenC && (f.sleepC != {} ==> |f.items| <= |f.wokenC|)
  }

  predicate ProducersInv<T>(f: Fifo<T>) {
    && f.sleepP !! f.wokenP
    && (f.max > 0 ==> |f.items| <= f.max)
    && (f.max > 0 && f.sleepP != {} ==> f.max - |f.items| <= |f.wokenP|)
    && (f.max == 0 ==> f.sleepP == {})
  }

  /** Sleeping consumers imply no more items than signalled consumers, sleeping producers
      no more free slots than signalled producers; the capacity is kept. */
  predicate Inv<T>(f: Fifo<T>) {
    ConsumersInv(f) && ProducersInv(f)
  }

  lemma AddOne(s: set<nat>, x: nat)
    requires x !in s
    ensures |s + {x}| == |s| + 1
  {
  }

  lemma RemoveAtMostOne(s: set<nat>, x: nat)
    ensures |s - {x}| >= |s| - 1 && (x !in s ==> s - {x} == s)
  {
    if x in s {
      assert |s - {x}| == |s| - 1;
    } else {
      assert s - {x} == s;
    }
  }

  lemma EnqKeeps<T>(f: Fifo<T>, t: nat, e: T, blocking: bool, pick: nat)
    requires Inv(f) && t !in f.sleepP && Picks(f.sleepC, pick)
    ensures Inv(Enq(f, t, e, blocking, pick).0)
  {
    RemoveAtMostOne(f.wokenP, t);
    if f.sleepC != {} {
      AddOne(f.wokenC, pick);
    }
  }

  lemma DeqKeeps<T>(f: Fifo<T>, t: nat, pick: nat)
    requires Inv(f) && t !in f.sleepC && Picks(f.sleepP, pick)
    ensures Inv(Deq(f, t, pick).0)
  {
    RemoveAtMostOne(f.wokenC, t);
    if f.sleepP != {} {
      AddOne(f.wokenP, pick);
    }
  }

  lemma SpuriousKeeps<T>(f: Fifo<T>, t: nat)
    requires Inv(f)
    ensures Inv(Spurious(f, t))
  {
    if t in f.sleepC {
      AddOne(f.wokenC, t);
    } else if t in f.sleepP {
      AddOne(f.wokenP, t);
    }
  }

  // ---- when elements are accepted and handed out ----

  /** An element goes in exactly when there is room, at the end; otherwise its thread waits or,
      if it does not want to, is turned away. */
  lemma EnqAccepts<T>(f: Fifo<T>, t: nat, e: T, blocking: bool, pick: nat)
    ensures
      var (f', r) := Enq(f, t, e, blocking, pick);
      && (r == Accepted <==> f.max == 0 || |f.items| < f.max)
      && (r == Asleep <==> f.max != 0 && |f.items| >= f.max && blocking)
      && f'.items == (if r == Accepted then f.items + [e] else f.items) && f'.max == f.max
      && (r == Asleep ==> t in f'.sleepP)
      && (r == Accepted && f.sleepC != {} ==> pick in f'.wokenC)
  {
  }

  /** The oldest element comes out whenever there is one; otherwise the thread waits. */
  lemma DeqHandsOut<T>(f: Fifo<T>, t: nat, pick: nat)
    ensures
      var (f', r) := Deq(f, t, pick);
      && (r.Some? <==> f.items != [])
      && (r.Some? ==> f.items == [r.value] + f'.items)
      && (r.None? ==> f'.items == f.items && t in f'.sleepC)
      && f'.max == f.max
      && (r.Some? && f.max != 0 && |f'.items| < f.max && f.sleepP != {} ==> pick in f'.wokenP)
  {
  }

  // ---- runs ----

  datatype Action<T> =
    | EnqBy(t: nat, e: T, blocking: bool, pick: nat)
    | DeqBy(t: nat, pick: nat)
    | WakeUp(t: nat)

  /** The queue together with everything ever accepted and everything handed out. */
  datatype State<T> = State(f: Fifo<T>, accepted: seq<T>, taken: seq<T>)

  ghost predicate Next<T>(s: State<T>, a: Action<T>, s': State<T>) {
    match a
    case EnqBy(t, e, blocking, pick) =>
      && t !in s.f.sleepP && Picks(s.f.sleepC, pick)
      && var (f, r) := Enq(s.f, t, e, blocking, pick);
         s' == State(f, if r == Accepted then s.accepted + [e] else s.accepted, s.taken)
    case DeqBy(t, pick) =>
      && t !in s.f.sleepC && Picks(s.f.sleepP, pick)
      && var (f, r) := Deq(s.f, t, pick);
         s' == State(f, s.accepted, if r.Some? then s.taken + [r.value] else s.taken)
    case WakeUp(t) => s' == s.(f := Spurious(s.f, t))
  }

  ghost predicate Run<T>(max: nat, ss: seq<State<T>>, acts: seq<Action<T>>) {
    && |ss| == |acts| + 1 && ss[0] == State(Empty(max), [], [])
    && forall i {:trigger Next(ss[i], acts[i], ss[i + 1])} :: 0 <= i < |acts| ==> Next(ss[i], acts[i], ss[i + 1])
  }

  ghost predicate Good<T>(max: nat, s: State<T>) {
    Inv(s.f) && s.f.max == max && s.taken + s.f.items == s.accepted
  }

  /** Appending to what is left appends to the whole. */
  lemma OrderKept<T>(taken: seq<T>, items: seq<T>, e: T)
    ensures taken + (items + [e]) == taken + items + [e]
    ensures items != [] ==> taken + [items[0]] + items[1..] == taken + items
  {
  }

  lemma NextKeeps<T>(max: nat, s: State<T>, a: Action<T>, s': State<T>)
    requires Next(s, a, s') && Good(max, s)
    ensures Good(max, s')
  {
    match a {
      case EnqBy(t, e, blocking, pick) =>
        EnqKeeps(s.f, t, e, blocking, pick);
        OrderKept(s.taken, s.f.items, e);
      case DeqBy(t, pick) =>
        DeqKeeps(s.f, t, pick);
        if s.f.items != [] {
          OrderKept(s.taken, s.f.items, s.f.items[0]);
        }
      case WakeUp(t) => SpuriousKeeps(s.f, t);
    }
  }

  /** In every run, with any producers, consumers and barging: no wakeup is lost, the
      capacity is never exceeded, and elements leave in the order they were accepted. */
  lemma {:induction false} RunKeeps<T>(max: nat, ss: seq<State<T>>, acts: seq<Action<T>>, i: nat)
    requires Run(max, ss, acts) && i < |ss|
    ensures Good(max, ss[i])
  {
    if i > 0 {
      var j := i - 1;
      RunKeeps(max, ss, acts, j);
      assert Next(ss[j], acts[j], ss[j + 1]);
      NextKeeps(max, ss[j], acts[j], ss[j + 1]);
    }
  }

  /** Nobody sleeps next to work: where a consumer sleeps although there are items, or a
      producer although there is room, another one is on its way. */
  lemma NobodySleepsForNothing<T>(max: nat, ss: seq<State<T>>, acts: seq<Action<T>>, i: nat)
    requires Run(max, ss, acts) && i < |ss|
    ensures
      var f := ss[i].f;
      && (f.sleepC != {} && f.items != [] ==> f.wokenC != {})
      && (f.sleepP != {} && HasRoom(f) ==> f.wokenP != {})
  {
    RunKeeps(max, ss, acts, i);
  }

  // ---- the object ----

  /** The queue as an object; a method is one passage through the lock, up to the return
      or the wait on a condition variable. */
  class Queue<T> {
    var items: seq<T>
    const max: nat
    var sleepC: set<nat>
    var wokenC: set<nat>
    var sleepP: set<nat>
    var wokenP: set<nat>

    ghost function Abs(): Fifo<T>
      reads this
    {
      Fifo(items, max, sleepC, wokenC, sleepP, wokenP)
    }

    constructor (limit: nat)
      ensures Abs() == Empty(limit)
    {
      items, max := [], limit;
      sleepC, wokenC, sleepP, wokenP := {}, {}, {}, {};
    }

    method EnqPass(t: nat, e: T, blocking: bool, pick: nat) returns (r: EnqResult)
      requires t !in sleepP && Picks(sleepC, pick)
      modifies this
      ensures r == Accepted <==> max == 0 || |old(items)| < max
      ensures items == if r == Accepted then old(items) + [e] else old(items)
      ensures r != Accepted ==> r == if blocking then Asleep else Rejected
      ensures t in sleepP <==> r == Asleep
      ensures r == Accepted && old(sleepC) != {} ==> pick in wokenC && pick !in sleepC
      ensures (Abs(), r) == Enq(old(Abs()), t, e, blocking, pick)
      ensures Inv(old(Abs())) ==> Inv(Abs())
    {
      EnqMayKeep(Abs(), t, e, blocking, pick);
      wokenP := wokenP - {t};
      if max == 0 || |items| < max {
        items := items + [e];
      } else if blocking {
        sleepP := sleepP + {t};
        return Asleep;
      } else {
        return Rejected;
      }
      if sleepC != {} {
        sleepC, wokenC := sleepC - {pick}, wokenC + {pick};
      }
      r := Accepted;
    }

    method DeqPass(t: nat, pick: nat) returns (r: Option<T>)
      requires t !in sleepC && Picks(sleepP, pick)
      modifies this
      ensures r.Some? <==> old(items) != []
      ensures r.Some? ==> old(items) == [r.value] + items
      ensures r.None? ==> items == [] && t in sleepC
      ensures r.Some? && max != 0 && |items| < max && old(sleepP) != {} ==> pick in wokenP && pick !in sleepP
      ensures (Abs(), r) == Deq(old(Abs()), t, pick)
      ensures Inv(old(Abs())) ==> Inv(Abs())
    {
      DeqMayKeep(Abs(), t, pick);
      wokenC := wokenC - {t};
      if items == [] {
        sleepC := sleepC + {t};
        return None;
      }
      r := Some(items[0]);
      items := items[1..];
      if max != 0 && |items| < max {
        if sleepP != {} {
          sleepP, wokenP := sleepP - {pick}, wokenP + {pick};
        }
      }
    }
  }

  lemma EnqMayKeep<T>(f: Fifo<T>, t: nat, e: T, blocking: bool, pick: nat)
    requires t !in f.sleepP && Picks(f.sleepC, pick)
    ensures Inv(f) ==> Inv(Enq(f, t, e, blocking, pick).0)
  {
    if Inv(f) {
      EnqKeeps(f, t, e, blocking, pick);
    }
  }

  lemma DeqMayKeep<T>(f: Fifo<T>, t: nat, pick: nat)
    requires t !in f.sleepC && Picks(f.sleepP, pick)
    ensures Inv(f) ==> Inv(Deq(f, t, pick).0)
  {
    if Inv(f) {
      DeqKeeps(f, t, pick);
    }
  }
}
