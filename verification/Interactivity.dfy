/** What the sleep average does to priorities, and what the time slices are worth: the
    arithmetic of effective_prio, TASK_INTERACTIVE, TASK_TIMESLICE, fork and exit. */
module Interactivity {
  import opened TaskModel
  import opened SchedSpec

  // ---- the dynamic priority ------------------------------------------------------------------

  function Clamp(prio: int): int {
    if prio < MAX_RT_PRIO then MAX_RT_PRIO else if prio > MAX_PRIO - 1 then MAX_PRIO - 1 else prio
  }

  lemma DivTwice(a: nat, b: int, c: int)
    requires b > 0 && c > 0
    ensures b * c > 0 && a / b / c == a / (b * c)
  {
    var n, m := a / b, a / b / c;
    assert n * b <= a < (n + 1) * b;
    assert m * c <= n < (m + 1) * c;
    assert (m * c) * b <= n * b by { Scaled(m * c, n, b); }
    assert (n + 1) * b <= ((m + 1) * c) * b by { Scaled(n + 1, (m + 1) * c, b); }
    DivIs(a, b * c, m);
  }

  lemma Scaled(x: int, y: int, k: int)
    requires x <= y && k > 0
    ensures x * k <= y * k
  {
  }

  lemma DivIs(a: int, b: int, m: int)
    requires b > 0 && m * b <= a < (m + 1) * b
    ensures a / b == m
  {
    var d := a / b;
    if d < m { Scaled(d + 1, m, b); }
    if d > m { Scaled(m + 1, d, b); }
  }

  /** The dynamic priority outside SHORT is the static one plus five, less five levels for
      each second in the sleep average. */
  lemma DynamicPrio(x: Rec, hz: Hz)
    requires !x.policy.Short?
    ensures EffectivePrio(x, hz) == Clamp(x.staticPrio + 5 - 5 * x.sleepAvg / hz)
  {
    var s := x.sleepAvg;
    DivTwice(40 * 25 * s, 2 * hz, 100);
    var m := 5 * s / hz;
    assert m * hz <= 5 * s < (m + 1) * hz;
    DivIs(40 * 25 * s, 2 * hz * 100, m);
  }

  /** The sleep average of a task is capped at two seconds. */
  predicate Capped(x: Rec, hz: Hz) { x.sleepAvg <= 2 * hz }

  /** An OTHER task at this static priority, with any sleep average. */
  predicate OtherAt(x: Rec, staticPrio: int, hz: Hz) {
    x.policy.Other? && x.staticPrio == staticPrio && Capped(x, hz)
  }

  lemma Levels(s: nat, hz: Hz)
    requires s <= 2 * hz
    ensures 0 <= 5 * s / hz <= 10 && (s == 0 ==> 5 * s / hz == 0) && (s == 2 * hz ==> 5 * s / hz == 10)
  {
    DivIs(10 * hz, hz, 10);
  }

  lemma MoreLevels(s: nat, r: nat, hz: Hz)
    requires s <= r
    ensures 5 * s / hz <= 5 * r / hz
  {
    var m, n := 5 * s / hz, 5 * r / hz;
    if m > n { Scaled(n + 1, m, hz); }
  }

  /** It stays within five levels of the static priority, and reaches both ends: a task that
      never sleeps gets five levels worse, and one that has slept two seconds five better. */
  lemma PriorityRange(x: Rec, hz: Hz)
    requires !x.policy.Short? && Capped(x, hz)
    ensures Clamp(x.staticPrio - 5) <= EffectivePrio(x, hz) <= Clamp(x.staticPrio + 5)
    ensures x.sleepAvg == 0 ==> EffectivePrio(x, hz) == Clamp(x.staticPrio + 5)
    ensures x.sleepAvg == 2 * hz ==> EffectivePrio(x, hz) == Clamp(x.staticPrio - 5)
  {
    DynamicPrio(x, hz);
    Levels(x.sleepAvg, hz);
  }

  /** The two promises at effective_prio: an interactive task at nice 19 does not preempt a
      hog at nice 0, and a hog at nice -20 is not preempted by a task at nice 0. In general,
      sleeping never lifts a task past another one exactly if they are more than ten static
      levels apart. */
  lemma NeverLifted(low: int, high: int, hz: Hz)
    requires MAX_RT_PRIO <= high < MAX_PRIO && MAX_RT_PRIO <= low < MAX_PRIO
    ensures low - high > 10 <==>
              forall x: Rec, y: Rec ::
                OtherAt(x, low, hz) && OtherAt(y, high, hz) ==> EffectivePrio(y, hz) < EffectivePrio(x, hz)
  {
    if low - high > 10 {
      forall x: Rec, y: Rec | OtherAt(x, low, hz) && OtherAt(y, high, hz)
        ensures EffectivePrio(y, hz) < EffectivePrio(x, hz)
      {
        PriorityRange(x, hz);
        PriorityRange(y, hz);
      }
    } else {
      var x := Rec(Running, low, low, Other, 1, false, 2 * hz, 0, 0, 0, false, 0, false);
      var y := x.(staticPrio := high, sleepAvg := 0);
      PriorityRange(x, hz);
      PriorityRange(y, hz);
      assert OtherAt(x, low, hz) && OtherAt(y, high, hz) && EffectivePrio(y, hz) >= EffectivePrio(x, hz);
    }
  }

  /** Waking up after a longer sleep never gives a worse priority; two seconds of sleep give
      the best one, and no credit is lost below that. */
  lemma SleepHelps(x: Rec, hz: Hz, slept: nat, longer: nat)
    requires x.policy.Other? && !IsRt(x) && Capped(x, hz) && 0 < slept <= longer
    ensures ActivateRec(x, hz, longer).prio <= ActivateRec(x, hz, slept).prio
    ensures Capped(ActivateRec(x, hz, slept), hz)
    ensures x.sleepAvg + slept <= 2 * hz ==> ActivateRec(x, hz, slept).sleepAvg == x.sleepAvg + slept
    ensures x.sleepAvg + slept >= 2 * hz ==> ActivateRec(x, hz, slept).sleepAvg == 2 * hz
    ensures x.sleepAvg + slept >= 2 * hz ==> ActivateRec(x, hz, slept).prio == Clamp(x.staticPrio - 5)
  {
    var y, z := ActivateRec(x, hz, slept), ActivateRec(x, hz, longer);
    DynamicPrio(y, hz);
    DynamicPrio(z, hz);
    MoreLevels(y.sleepAvg, z.sleepAvg, hz);
    PriorityRange(y, hz);
  }

  /** Neither a real-time task nor one that has not slept gets any credit, and nobody gets
      anything but credit. */
  lemma OnlyCredit(x: Rec, hz: Hz, slept: nat)
    ensures IsRt(x) || slept == 0 ==> ActivateRec(x, hz, slept) == x
    ensures ActivateRec(x, hz, slept).(prio := x.prio, sleepAvg := x.sleepAvg) == x
  {
  }

  /** n ticks of a running task, each with its outcome of the interactivity test. */
  function Ticks(x: Rec, hz: Hz, outcomes: seq<bool>): Rec
    decreases |outcomes|
  {
    if outcomes == [] then x else Ticks(TickRec(x, hz, true, outcomes[0]).rec, hz, outcomes[1..])
  }

  /** Running uses the sleep average up, a tick at a time: whoever runs for two seconds
      without sleeping has the worst priority of its nice level. */
  lemma {:induction false} HogSinks(x: Rec, hz: Hz, outcomes: seq<bool>)
    requires RecOk(x) && x.policy.Other?
    ensures var y := Ticks(x, hz, outcomes);
            && y.policy.Other? && y.staticPrio == x.staticPrio
            && y.sleepAvg == (if |outcomes| < x.sleepAvg then x.sleepAvg - |outcomes| else 0)
            && (|outcomes| >= x.sleepAvg ==> EffectivePrio(y, hz) == Clamp(x.staticPrio + 5))
    decreases |outcomes|
  {
    if outcomes != [] {
      TickRecOk(x, hz, true, outcomes[0]);
      HogSinks(TickRec(x, hz, true, outcomes[0]).rec, hz, outcomes[1..]);
    } else if x.sleepAvg == 0 {
      PriorityRange(x, hz);
    }
  }

  // ---- the interactivity test ------------------------------------------------------------------

  /** DELTA */
  function Delta(x: Rec): int { CDiv((x.staticPrio - MAX_RT_PRIO - 20) * 10, 40) + 2 }

  /** TASK_INTERACTIVE */
  predicate Interactive(x: Rec) { x.prio <= x.staticPrio - Delta(x) }

  /** The test as the table at TASK_INTERACTIVE gives it: for a nice level and a dynamic
      priority `axis` levels below or above the static one. */
  predicate Rated(nice: int, axis: int) {
    if nice == -20 then axis <= 3 else if nice == -10 then axis <= 1 else if nice == 0 then axis <= -2
    else if nice == 10 then axis <= -4 else false
  }

  /** The code agrees with the table everywhere but at one place: one level above its static
      priority a task at nice -10 is not rated interactive, because C division truncates. */
  lemma TableAgrees(x: Rec, nice: int, axis: int)
    requires nice in {-20, -10, 0, 10, 19} && -5 <= axis <= 5
    requires x.staticPrio == MAX_RT_PRIO + nice + 20 && x.prio == x.staticPrio + axis
    ensures Interactive(x) == Rated(nice, axis) <==> !(nice == -10 && axis == 1)
  {
  }

  /** Some sleep average makes a task interactive exactly at nice levels up to 15. */
  lemma CanBeInteractive(staticPrio: int, hz: Hz)
    requires MAX_RT_PRIO <= staticPrio < MAX_PRIO
    ensures (exists x: Rec :: OtherAt(x, staticPrio, hz) && x.prio == EffectivePrio(x, hz) && Interactive(x))
            <==> staticPrio - MAX_RT_PRIO - 20 <= 15
  {
    var best := Rec(Running, Clamp(staticPrio - 5), staticPrio, Other, 1, false, 2 * hz, 0, 0, 0, false, 0, false);
    PriorityRange(best, hz);
    if staticPrio - MAX_RT_PRIO - 20 <= 15 {
      assert OtherAt(best, staticPrio, hz) && Interactive(best);
    } else {
      forall x: Rec | OtherAt(x, staticPrio, hz) && x.prio == EffectivePrio(x, hz)
        ensures !Interactive(x)
      {
        PriorityRange(x, hz);
      }
    }
  }

  // ---- time slices ---------------------------------------------------------------------------------

  /** MIN_TIMESLICE is 10 ms and MAX_TIMESLICE 300 ms, rounded down to a tick. */
  lemma SliceEnds(hz: Hz)
    ensures MinSlice(hz) == hz / 100 && MaxSlice(hz) == 3 * hz / 10 && hz / 100 <= 3 * hz / 10 <= 120_000
  {
    DivIs(10 * hz, 1000, hz / 100);
    DivIs(300 * hz, 1000, 3 * hz / 10);
  }

  lemma SliceFits(least: nat, span: nat, k: nat)
    requires k <= 39 && span <= 120_000 && least <= 4_000
    ensures span * k >= 0 && CDiv(span * k, 39) == span * k / 39
    ensures ToWord(least + span * k / 39) == least + span * k / 39
  {
    ScaleRange(span, k);
  }

  /** Slices fall linearly from 300 ms at nice -20 to 10 ms at nice 19, rounded down. */
  lemma SliceValue(staticPrio: int, hz: Hz)
    requires MAX_RT_PRIO <= staticPrio < MAX_PRIO
    ensures TaskSlice(staticPrio, hz) == hz / 100 + (3 * hz / 10 - hz / 100) * (MAX_PRIO - 1 - staticPrio) / 39
  {
    SliceEnds(hz);
    SliceFits(MinSlice(hz), MaxSlice(hz) - MinSlice(hz), MAX_PRIO - 1 - staticPrio);
  }

  /** No slice is longer at a worse nice level. */
  lemma SlicesFall(better: int, worse: int, hz: Hz)
    requires MAX_RT_PRIO <= better <= worse < MAX_PRIO
    ensures TaskSlice(better, hz) >= TaskSlice(worse, hz)
  {
    SliceEnds(hz);
    SliceValue(better, hz);
    SliceValue(worse, hz);
    DivGrows(3 * hz / 10 - hz / 100, MAX_PRIO - 1 - worse, MAX_PRIO - 1 - better);
  }

  lemma DivGrows(span: nat, a: nat, b: nat)
    requires a <= b
    ensures span * a / 39 <= span * b / 39
  {
    assert span * a <= span * b;
  }

  // ---- fork and exit ---------------------------------------------------------------------------------

  /** A fork halves the slice; an odd tick goes to the child. */
  lemma ForkHalves(x: Rec)
    requires x.timeSlice < 0xFFFF_FFFF
    ensures var split := ForkSplit(x);
            && split.parent.timeSlice + split.child.timeSlice == x.timeSlice && split.child.firstTimeSlice
            && split.parent.timeSlice <= split.child.timeSlice <= split.parent.timeSlice + 1
            && split.parent.firstTimeSlice == x.firstTimeSlice
  {
  }

  /** A child that dies before it has run gives the whole slice back, up to the longest
      slice there is. */
  lemma ForkThenExit(x: Rec, hz: Hz)
    requires 2 <= x.timeSlice < 0xFFFF_FFFF && !x.policy.Short?
    ensures var split := ForkSplit(x);
            Reap(KeepTick(split.parent), split.child, hz)
            == x.(timeSlice := if x.timeSlice <= MaxSlice(hz) then x.timeSlice else MaxSlice(hz))
  {
    ForkHalves(x);
  }

  /** What a parent gets back from a child that dies, as long as no sum wraps: the child's
      slice if that is its first one, up to the longest slice there is, and else nothing. */
  lemma GivenBack(p: Rec, c: Rec, hz: Hz)
    requires p.timeSlice + c.timeSlice < 0x1_0000_0000
    ensures var sum, y := p.timeSlice + c.timeSlice, Reap(p, c, hz);
            && y.timeSlice == (if !c.firstTimeSlice then p.timeSlice
                               else if sum <= MaxSlice(hz) then sum else MaxSlice(hz))
            && y.(timeSlice := p.timeSlice, sleepAvg := p.sleepAvg) == p
  {
  }

  /** As long as a task may give its slice back, that slice is what is left of the one it
      was given at fork: no slice granted later can reach the parent. */
  lemma {:induction false} GivesBackItsOwn(x: Rec, hz: Hz, outcomes: seq<bool>)
    requires RecOk(x) && x.timeSlice > 0
    ensures var y := Ticks(x, hz, outcomes); y.firstTimeSlice ==> x.firstTimeSlice && 0 < y.timeSlice <= x.timeSlice
    decreases |outcomes|
  {
    hide EffectivePrio, TaskSlice, ShortSlice;
    if outcomes != [] {
      TickRecOk(x, hz, true, outcomes[0]);
      var y := TickRec(x, hz, true, outcomes[0]).rec;
      assert TaskSlice(x.staticPrio, hz) > 0 by { SliceRange(x.staticPrio, hz); }
      GivesBackItsOwn(y, hz, outcomes[1..]);
    }
  }

  /** The parent's sleep average after it has reaped a child: unchanged unless the child was
      more of a hog, and then three parts its own and one part the child's. */
  lemma HogChild(p: Rec, c: Rec, hz: Hz)
    ensures var avg := Reap(p, c, hz).sleepAvg;
            if c.sleepAvg >= p.sleepAvg then avg == p.sleepAvg
            else c.sleepAvg <= avg < p.sleepAvg && 4 * avg <= 3 * p.sleepAvg + c.sleepAvg < 4 * (avg + 1)
  {
  }

  /** A task with the best priority of its nice level cannot fork one: the child starts
      behind it. */
  lemma ChildBehind(x: Rec, hz: Hz)
    requires x.policy.Other? && !IsRt(x) && Capped(x, hz) && x.staticPrio >= MAX_RT_PRIO
    ensures var y := ChildRec(x, hz);
            && Clamp(x.staticPrio - 4) <= y.prio && EffectivePrio(x, hz) <= y.prio
            && 100 * y.sleepAvg <= 95 * x.sleepAvg < 100 * (y.sleepAvg + 1)
            && y.prio == Clamp(x.staticPrio + 5 - 5 * y.sleepAvg / hz)
  {
    var y := ChildRec(x, hz);
    DynamicPrio(x, hz);
    DynamicPrio(y, hz);
    MoreLevels(y.sleepAvg, x.sleepAvg, hz);
    var m := 5 * y.sleepAvg / hz;
    assert m * hz <= 5 * y.sleepAvg;
    if m >= 10 { Scaled(10, m, hz); }
  }
}
