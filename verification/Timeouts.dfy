/** Deadlines and the retry loop of a call: until when exactly an unanswered call waits each
    time, how often, when it sends again, and that its doubling timeout stays within an int. */
module Timeouts {
  const BILLION: int := 1_000_000_000
  const MAX_TIMEOUT: nat := 0x4000_0000
  const TO_MIN: nat := 1000

  datatype Timespec = Timespec(sec: int, nsec: int)

  /** Nanoseconds since the epoch. */
  function Value(t: Timespec): int {
    t.sec * BILLION + t.nsec
  }

  predicate Normal(t: Timespec) {
    0 <= t.nsec < BILLION
  }

  /** What add_timespec produces: nsec may be exactly a billion. */
  predicate AlmostNormal(t: Timespec) {
    0 <= t.nsec <= BILLION
  }

  function Compare(a: Timespec, b: Timespec): int {
    if a.sec > b.sec then 1
    else if a.sec < b.sec then -1
    else if a.nsec > b.nsec then 1
    else if a.nsec < b.nsec then -1
    else 0
  }

  /** cmp_timespec gives the true order exactly when two equal times are also written
      alike; on strictly ordered times it is always right. */
  lemma CompareIsRight(a: Timespec, b: Timespec)
    requires AlmostNormal(a) && AlmostNormal(b)
    ensures Value(a) < Value(b) ==> Compare(a, b) == -1
    ensures Value(a) > Value(b) ==> Compare(a, b) == 1
    ensures Value(a) == Value(b) ==> (Compare(a, b) == 0 <==> a == b)
  {
  }

  /** Two ways to write one time, which cmp_timespec tells apart. */
  lemma EqualTimesCompareUnequal()
    ensures
      var a, b := Timespec(1, BILLION), Timespec(2, 0);
      AlmostNormal(a) && AlmostNormal(b) && Value(a) == Value(b) && Compare(a, b) == -1
  {
  }

  /** add_timespec is exact for every timeout that is not negative. */
  method AddTimespec(a: Timespec, b: nat) returns (r: Timespec)
    requires Normal(a)
    ensures AlmostNormal(r) && Value(r) == Value(a) + b * 1_000_000 && r.sec >= a.sec
    ensures r.nsec == BILLION <==> (a.nsec + b % 1000 * 1_000_000) == BILLION
  {
    var sec := a.sec + b / 1000;
    var nsec := a.nsec + b % 1000 * 1_000_000;
    while nsec > BILLION
      invariant 0 <= nsec && sec >= a.sec
      invariant sec * BILLION + nsec == (a.sec + b / 1000) * BILLION + (a.nsec + b % 1000 * 1_000_000)
      invariant nsec == a.nsec + b % 1000 * 1_000_000 || 0 < nsec < BILLION
    {
      sec := sec + 1;
      nsec := nsec - BILLION;
    }
    r := Timespec(sec, nsec);
    Milliseconds(b);
  }

  lemma Milliseconds(b: nat)
    ensures b / 1000 * BILLION + b % 1000 * 1_000_000 == b * 1_000_000
  {
  }

  function Pow2(n: nat): (p: nat)
    ensures p > n
  {
    if n == 0 then 1 else 2 * Pow2(n - 1)
  }

  /** The floor of the base-two logarithm. */
  function Log2(n: nat): (l: nat)
    requires n > 0
    ensures Pow2(l) <= n < Pow2(l + 1)
  {
    if n == 1 then 0 else 1 + Log2(n / 2)
  }

  lemma {:induction false} PowersGrow(k: nat, l: nat)
    requires k <= l
    ensures Pow2(k) <= Pow2(l)
  {
    if k < l {
      PowersGrow(k, l - 1);
    }
  }

  lemma LogIsLargest(n: nat, k: nat)
    requires n > 0 && Pow2(k) <= n
    ensures k <= Log2(n)
  {
    if k > Log2(n) {
      PowersGrow(Log2(n) + 1, k);
    }
  }

  /** The clock at a moment, as clock_gettime gives it. */
  function Reading(v: int): (t: Timespec)
    ensures Normal(t) && Value(t) == v
  {
    Timespec(v / BILLION, v % BILLION)
  }

  // ---- the schedule, in nanoseconds ----

  /** The end of the wait before wait k; for the first one, the start of the call. */
  function Previous(waits: seq<Timespec>, start: int, k: nat): int
    requires k <= |waits|
  {
    if k == 0 then start else Value(waits[k - 1])
  }

  /** The k-th timeout: one second, doubled k times. */
  function Delay(k: nat): nat {
    TO_MIN * Pow2(k) * 1_000_000
  }

  /** When wait k is due. */
  function Due(waits: seq<Timespec>, start: int, late: nat -> nat, k: nat): int
    requires k <= |waits|
  {
    Previous(waits, start, k) + late(k) + Delay(k)
  }

  /** add_timespec spells this final deadline with a billion nanoseconds. */
  predicate OddlySpelled(start: Timespec, to: nat) {
    start.nsec + to % 1000 * 1_000_000 == BILLION
  }

  /** The comparison with the final deadline; an equal time compares as greater exactly when the
      deadline is the one with the odd spelling. */
  predicate Passes(due: int, end: int, odd: bool) {
    due > end || (due == end && odd)
  }

  /** Wait k ends when it is due, and that is not past the final deadline. */
  ghost predicate OnTime(waits: seq<Timespec>, start: int, end: int, odd: bool, late: nat -> nat, k: nat)
    requires k < |waits|
  {
    Value(waits[k]) == Due(waits, start, late, k) && !Passes(Due(waits, start, late, k), end, odd)
  }

  ghost predicate Begun(waits: seq<Timespec>, start: int, end: int, odd: bool, late: nat -> nat) {
    forall k :: 0 <= k < |waits| ==> OnTime(waits, start, end, odd, late, k)
  }

  /** The waits of a call that gets no answer: each ends when it is due, up to the first that
      would pass the final deadline, which ends there and is the last. */
  ghost predicate Schedule(waits: seq<Timespec>, start: int, end: int, odd: bool, late: nat -> nat) {
    && |waits| > 0
    && (forall k :: 0 <= k < |waits| - 1 ==> OnTime(waits, start, end, odd, late, k))
    && Passes(Due(waits, start, late, |waits| - 1), end, odd)
    && Value(waits[|waits| - 1]) == end
  }

  lemma SameDue(waits: seq<Timespec>, next: Timespec, start: int, late: nat -> nat, k: nat)
    requires k <= |waits|
    ensures Due(waits + [next], start, late, k) == Due(waits, start, late, k)
  {
  }

  lemma BegunGrows(waits: seq<Timespec>, start: int, end: int, odd: bool, late: nat -> nat, next: Timespec)
    requires Begun(waits, start, end, odd, late)
    requires Value(next) == Due(waits, start, late, |waits|) && !Passes(Value(next), end, odd)
    ensures Begun(waits + [next], start, end, odd, late)
  {
    forall k | 0 <= k <= |waits| ensures OnTime(waits + [next], start, end, odd, late, k) {
      SameDue(waits, next, start, late, k);
      if k < |waits| {
        assert OnTime(waits, start, end, odd, late, k);
      }
    }
  }

  lemma BegunEnds(waits: seq<Timespec>, start: int, end: int, odd: bool, late: nat -> nat, next: Timespec)
    requires Begun(waits, start, end, odd, late) && Value(next) == end
    requires Passes(Due(waits, start, late, |waits|), end, odd)
    ensures Schedule(waits + [next], start, end, odd, late)
  {
    SameDue(waits, next, start, late, |waits|);
    forall k | 0 <= k < |waits| ensures OnTime(waits + [next], start, end, odd, late, k) {
      SameDue(waits, next, start, late, k);
      assert OnTime(waits, start, end, odd, late, k);
    }
  }

  /** There is one schedule only. */
  lemma {:induction false} ScheduleIsUnique(
      ws: seq<Timespec>, vs: seq<Timespec>, start: int, end: int, odd: bool, late: nat -> nat, k: nat)
    requires Schedule(ws, start, end, odd, late) && Schedule(vs, start, end, odd, late) && k < |ws|
    ensures k < |vs| && Value(ws[k]) == Value(vs[k])
    ensures k == |ws| - 1 <==> k == |vs| - 1
  {
    if k > 0 {
      ScheduleIsUnique(ws, vs, start, end, odd, late, k - 1);
    }
    assert Previous(ws, start, k) == Previous(vs, start, k);
    assert k < |ws| - 1 ==> OnTime(ws, start, end, odd, late, k);
    assert k < |vs| - 1 ==> OnTime(vs, start, end, odd, late, k);
  }

  /** With a clock that is read on time the waits end 1, 3, 7, ... seconds after the start. */
  lemma {:induction false} PunctualDue(waits: seq<Timespec>, start: int, end: int, odd: bool, late: nat -> nat, k: nat)
    requires Schedule(waits, start, end, odd, late) && (forall i: nat :: late(i) == 0) && k < |waits|
    ensures Due(waits, start, late, k) == start + BILLION * (Pow2(k + 1) - 1)
  {
    if k > 0 {
      PunctualDue(waits, start, end, odd, late, k - 1);
      assert OnTime(waits, start, end, odd, late, k - 1);
    }
  }

  /** The exact number of waits, and when each of them ends. */
  lemma PunctualWaits(waits: seq<Timespec>, start: Timespec, to: nat, late: nat -> nat)
    requires Schedule(waits, Value(start), Value(start) + to * 1_000_000, OddlySpelled(start, to), late)
    requires (forall i: nat :: late(i) == 0) && Normal(start)
    ensures |waits| == Log2(to / 1000 + 1) + 1
    ensures forall k :: 0 <= k < |waits| - 1 ==> Value(waits[k]) == Value(start) + BILLION * (Pow2(k + 1) - 1)
  {
    forall k | 0 <= k < |waits| - 1 ensures Value(waits[k]) == Value(start) + BILLION * (Pow2(k + 1) - 1) {
      PunctualEnd(waits, Value(start), Value(start) + to * 1_000_000, OddlySpelled(start, to), late, k);
    }
    PunctualCount(waits, start, to, late);
  }

  lemma PunctualEnd(waits: seq<Timespec>, start: int, end: int, odd: bool, late: nat -> nat, k: nat)
    requires Schedule(waits, start, end, odd, late) && (forall i: nat :: late(i) == 0) && k < |waits| - 1
    ensures Value(waits[k]) == start + BILLION * (Pow2(k + 1) - 1) && !Passes(Due(waits, start, late, k), end, odd)
  {
    PunctualDue(waits, start, end, odd, late, k);
    assert OnTime(waits, start, end, odd, late, k);
  }

  lemma PunctualCount(waits: seq<Timespec>, start: Timespec, to: nat, late: nat -> nat)
    requires Schedule(waits, Value(start), Value(start) + to * 1_000_000, OddlySpelled(start, to), late)
    requires (forall i: nat :: late(i) == 0) && Normal(start)
    ensures |waits| == Log2(to / 1000 + 1) + 1
  {
    var n := |waits| - 1;
    PassesIff(waits, start, to, late, n);
    if n > 0 {
      PassesIff(waits, start, to, late, n - 1);
      PunctualEnd(waits, Value(start), Value(start) + to * 1_000_000, OddlySpelled(start, to), late, n - 1);
    }
    LogIs(to / 1000 + 1, n);
  }

  lemma PassesIff(waits: seq<Timespec>, start: Timespec, to: nat, late: nat -> nat, k: nat)
    requires Schedule(waits, Value(start), Value(start) + to * 1_000_000, OddlySpelled(start, to), late)
    requires (forall i: nat :: late(i) == 0) && Normal(start) && k < |waits|
    ensures Passes(Due(waits, Value(start), late, k), Value(start) + to * 1_000_000, OddlySpelled(start, to))
            <==> Pow2(k + 1) > to / 1000 + 1
  {
    PunctualDue(waits, Value(start), Value(start) + to * 1_000_000, OddlySpelled(start, to), late, k);
    WholeSeconds(start, to, Pow2(k + 1));
  }

  /** A time that is whole seconds after the start passes the deadline only if it is later. */
  lemma WholeSeconds(start: Timespec, to: nat, p: nat)
    requires Normal(start) && p > 0
    ensures
      Passes(Value(start) + BILLION * (p - 1), Value(start) + to * 1_000_000, OddlySpelled(start, to)) <==> p > to / 1000 + 1
  {
    if p - 1 > to / 1000 {
      assert 1000 * (p - 1) > to;
    } else {
      assert 1000 * (p - 1) <= to;
      assert 1000 * (p - 1) == to ==> to % 1000 == 0;
    }
  }

  lemma LogIs(n: nat, l: nat)
    requires n > 0 && Pow2(l + 1) > n && (l > 0 ==> Pow2(l) <= n)
    ensures Log2(n) == l
  {
    LogIsLargest(n, l);
    if Log2(n) > l {
      PowersGrow(l + 1, Log2(n));
    }
  }

  /** Late or not: bounded in number, none past the final deadline. */
  ghost predicate GoodWaits(waits: seq<Timespec>, end: int, to: nat) {
    && 1 <= |waits| <= Log2(to / 1000 + 1) + 1
    && (forall i :: 0 <= i < |waits| ==> Value(waits[i]) <= end)
  }

  /** Lateness only ever makes the waits fewer. */
  lemma {:induction false} DueAtLeast(waits: seq<Timespec>, start: int, end: int, odd: bool, late: nat -> nat, k: nat)
    requires Schedule(waits, start, end, odd, late) && k < |waits|
    ensures Due(waits, start, late, k) >= start + BILLION * (Pow2(k + 1) - 1)
  {
    if k > 0 {
      DueAtLeast(waits, start, end, odd, late, k - 1);
      assert OnTime(waits, start, end, odd, late, k - 1);
    }
  }

  lemma ScheduleIsGood(waits: seq<Timespec>, start: int, to: nat, odd: bool, late: nat -> nat)
    requires Schedule(waits, start, start + to * 1_000_000, odd, late)
    ensures GoodWaits(waits, start + to * 1_000_000, to)
  {
    var n, end := |waits| - 1, start + to * 1_000_000;
    forall i | 0 <= i < n ensures Value(waits[i]) <= end {
      assert OnTime(waits, start, end, odd, late, i);
    }
    if n > 0 {
      assert OnTime(waits, start, end, odd, late, n - 1);
      DueAtLeast(waits, start, end, odd, late, n - 1);
      SecondsFit(Pow2(n), to);
      LogIsLargest(to / 1000 + 1, n);
    }
  }

  lemma SecondsFit(p: nat, to: nat)
    requires BILLION * (p - 1) <= to * 1_000_000
    ensures p <= to / 1000 + 1
  {
    assert 1000 * (p - 1) <= to;
  }

  lemma OneMoreDoubling(to: nat, k: nat)
    requires to <= MAX_TIMEOUT && TO_MIN * Pow2(k) - TO_MIN <= to
    ensures Pow2(k) <= to / 1000 + 1 && k <= Log2(to / 1000 + 1) && k <= 20
    ensures TO_MIN * Pow2(k + 1) < 0x8000_0000
  {
    var p := Pow2(k);
    assert 1000 * (p - 1) <= to;
    LogIsLargest(to / 1000 + 1, k);
    if k > 20 {
      PowersGrow(21, k);
      TwoToTwenty();
    }
    PowersGrow(k + 1, 21);
    TwoToTwenty();
  }

  lemma TwoToTwenty()
    ensures Pow2(21) == 0x20_0000
  {
    assert Pow2(7) == 128;
    assert Pow2(14) == 16384;
  }

  lemma ComparisonPasses(next: Timespec, final: Timespec)
    requires Normal(next) && AlmostNormal(final)
    ensures Compare(next, final) > 0 <==> Passes(Value(next), Value(final), final.nsec == BILLION)
  {
  }

  /** The loop before its last wait. */
  ghost predicate Going(waits: seq<Timespec>, start: int, end: int, odd: bool, late: nat -> nat, final: Timespec, curr: nat, to: nat) {
    && AlmostNormal(final) && Value(final) == end && (final.nsec == BILLION <==> odd)
    && Begun(waits, start, end, odd, late)
    && Previous(waits, start, |waits|) >= start + (curr - TO_MIN) * 1_000_000
    && curr == TO_MIN * Pow2(|waits|) && curr - TO_MIN <= to && end == start + to * 1_000_000
  }

  /** The loop between rounds: `sec` of the final deadline is cleared for the last one. */
  ghost predicate Stands(waits: seq<Timespec>, start: int, end: int, odd: bool, late: nat -> nat, final: Timespec, curr: nat, to: nat) {
    if final.sec != 0 then Going(waits, start, end, odd, late, final, curr, to) else Schedule(waits, start, end, odd, late)
  }

  lemma GoesOn(waits: seq<Timespec>, start: int, end: int, odd: bool, late: nat -> nat, final: Timespec, curr: nat, to: nat, next: Timespec)
    requires Going(waits, start, end, odd, late, final, curr, to)
    requires Normal(next) && Value(next) == Due(waits, start, late, |waits|) && !(Compare(next, final) > 0)
    ensures Going(waits + [next], start, end, odd, late, final, 2 * curr, to)
  {
    ComparisonPasses(next, final);
    BegunGrows(waits, start, end, odd, late, next);
    assert Value(next) >= start + (2 * curr - TO_MIN) * 1_000_000;
  }

  lemma GoesToEnd(waits: seq<Timespec>, start: int, end: int, odd: bool, late: nat -> nat, final: Timespec, curr: nat, to: nat, next: Timespec)
    requires to <= MAX_TIMEOUT && Going(waits, start, end, odd, late, final, curr, to)
    requires Normal(next) && Value(next) == Due(waits, start, late, |waits|) && Compare(next, final) > 0
    ensures Schedule(waits + [final], start, end, odd, late)
  {
    ComparisonPasses(next, final);
    BegunEnds(waits, start, end, odd, late, final);
  }

  /** Reading the clock and adding the k-th timeout: whole seconds, so the sum is spelled
      normally. */
  method NextDeadline(clock: int, curr: nat, ghost k: nat) returns (next: Timespec)
    requires curr == TO_MIN * Pow2(k)
    ensures Normal(next) && Value(next) == clock + Delay(k)
  {
    next := AddTimespec(Reading(clock), curr);
    assert curr % 1000 == 0;
  }

  /** The deadline of the next wait: the clock is read and the timeout added, but the final deadline
      comes first; its `sec` is cleared then. */
  method NextWait(clock: int, curr: nat, finaldeadline: Timespec, ghost waits: seq<Timespec>,
                  ghost start: int, ghost end: int, ghost odd: bool, ghost late: nat -> nat, ghost to: nat)
    returns (nextdeadline: Timespec, rest: Timespec)
    requires to <= MAX_TIMEOUT && finaldeadline.sec != 0
    requires Going(waits, start, end, odd, late, finaldeadline, curr, to)
    requires clock == Previous(waits, start, |waits|) + late(|waits|)
    ensures Stands(waits + [nextdeadline], start, end, odd, late, rest, 2 * curr, to)
  {
    nextdeadline := NextDeadline(clock, curr, |waits|);
    rest := finaldeadline;
    if Compare(nextdeadline, finaldeadline) > 0 {
      GoesToEnd(waits, start, end, odd, late, finaldeadline, curr, to, nextdeadline);
      nextdeadline := finaldeadline;
      rest := finaldeadline.(sec := 0);
    } else {
      GoesOn(waits, start, end, odd, late, finaldeadline, curr, to, nextdeadline);
    }
  }

  /** Before its last wait the timeout is far from the limit of an int. */
  lemma GoingIsShort(waits: seq<Timespec>, start: int, end: int, odd: bool, late: nat -> nat, final: Timespec, curr: nat, to: nat)
    requires to <= MAX_TIMEOUT && Going(waits, start, end, odd, late, final, curr, to)
    ensures |waits| <= 20 && 2 * curr < 0x8000_0000
  {
    OneMoreDoubling(to, |waits|);
  }

  lemma GoingStarts(start: Timespec, to: nat, late: nat -> nat, final: Timespec)
    requires Normal(start) && AlmostNormal(final) && Value(final) == Value(start) + to * 1_000_000
    requires final.nsec == BILLION <==> OddlySpelled(start, to)
    ensures Going([], Value(start), Value(final), OddlySpelled(start, to), late, final, TO_MIN, to)
  {
  }

  /** The request is sent in the first round, and after each wait that found the connection lost. */
  predicate SentWhenLost(sends: seq<bool>, retrans: bool, lost: nat -> bool) {
    forall k :: 0 <= k < |sends| ==> sends[k] == (k == 0 || (retrans && lost(k - 1)))
  }

  /** The retry loop of call1 when no reply comes.  The clock stands at `start` when the
      call begins; `late` is by how much later than due the k-th reading comes.  `lost` says
      whether there is no live connection after wait k; `sends` says in which rounds the
      request is sent, the round after the last wait included. */
  method UnansweredCall(start: Timespec, to: nat, late: nat -> nat, retrans: bool, lost: nat -> bool)
    returns (waits: seq<Timespec>, sends: seq<bool>, largest: nat)
    requires Normal(start) && start.sec > 0 && to <= MAX_TIMEOUT
    ensures Schedule(waits, Value(start), Value(start) + to * 1_000_000, OddlySpelled(start, to), late)
    ensures GoodWaits(waits, Value(start) + to * 1_000_000, to)
    ensures |sends| == |waits| + 1 && SentWhenLost(sends, retrans, lost)
    ensures largest < 0x8000_0000
  {
    var finaldeadline := AddTimespec(start, to);
    var curr := TO_MIN;
    var due := Value(start);
    ghost var v, end, odd := Value(start), Value(start) + to * 1_000_000, OddlySpelled(start, to);
    GoingStarts(start, to, late, finaldeadline);
    waits, sends, largest := [], [], curr;
    var transmit := true;
    while true
      invariant due == Previous(waits, v, |waits|)
      invariant Stands(waits, v, end, odd, late, finaldeadline, curr, to)
      invariant |sends| == |waits| && SentWhenLost(sends, retrans, lost)
      invariant transmit == (|waits| == 0 || (retrans && lost(|waits| - 1)))
      invariant largest < 0x8000_0000
      decreases if finaldeadline.sec == 0 then 0 else 22 - |waits|
    {
      sends := sends + [transmit];
      transmit := false;
      if finaldeadline.sec == 0 {
        break;
      }
      GoingIsShort(waits, v, end, odd, late, finaldeadline, curr, to);
      var nextdeadline;
      nextdeadline, finaldeadline :=
        NextWait(due + late(|waits|), curr, finaldeadline, waits, v, end, odd, late, to);
      waits := waits + [nextdeadline];
      due := Value(nextdeadline);
      if retrans && lost(|waits| - 1) {
        transmit := true;
      }
      curr := 2 * curr;
      largest := curr;
    }
    ScheduleIsGood(waits, v, to, odd, late);
  }
}
