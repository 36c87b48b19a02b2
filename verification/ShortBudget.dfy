/** How long a SHORT task stays SHORT. */
module ShortBudget {
  import opened TaskModel
  import opened SchedSpec

  /** The slices of the trials from number j on. */
  function LaterSlices(x: Rec, hz: Hz, j: nat): nat
    decreases x.trials - j
  {
    var grant := ShortSlice(x.requestedTime, hz, j);
    if j < x.trials && grant > 0 then grant + LaterSlices(x, hz, j + 1) else 0
  }

  /** Ticks until a SHORT task becomes overdue. A slice of zero wraps around. */
  function Budget(x: Rec, hz: Hz): nat {
    (if x.timeSlice == 0 then 0x1_0000_0000 else x.timeSlice) + LaterSlices(x, hz, x.trial + 1)
  }

  predicate IsShort(x: Rec) { x.policy.Short? && !x.overdue }

  /** n ticks charged to one task. */
  function Ticked(x: Rec, hz: Hz, n: nat): Rec
    decreases n
  {
    if n == 0 then x else Ticked(TickShort(x, hz).rec, hz, n - 1)
  }

  /** A tick uses up one tick of the budget; the task becomes overdue with its last one. */
  lemma TickSpendsOne(x: Rec, hz: Hz)
    requires IsShort(x)
    ensures var y := TickShort(x, hz).rec;
            && (y.overdue <==> Budget(x, hz) == 1)
            && (!y.overdue ==> IsShort(y) && Budget(y, hz) == Budget(x, hz) - 1 && y.timeSlice > 0)
            && (y.trial == x.trial || y.trial == x.trial + 1)
  {
    hide ShortSlice, LaterSlices;
    LaterNext(x, hz, x.trial + 1);
    if Dec(x.timeSlice) != 0 {
      SameLater(x, x.(timeSlice := Dec(x.timeSlice)), hz, x.trial + 1);
    } else {
      SameLater(x, TickShort(x, hz).rec, hz, x.trial + 2);
    }
  }

  lemma LaterNext(x: Rec, hz: Hz, j: nat)
    ensures var grant := ShortSlice(x.requestedTime, hz, j);
            LaterSlices(x, hz, j) == if j < x.trials && grant > 0 then grant + LaterSlices(x, hz, j + 1) else 0
  {
  }

  lemma {:induction false} SameLater(x: Rec, y: Rec, hz: Hz, j: nat)
    requires x.requestedTime == y.requestedTime && x.trials == y.trials
    ensures LaterSlices(x, hz, j) == LaterSlices(y, hz, j)
    decreases x.trials - j
  {
    if j < x.trials && ShortSlice(x.requestedTime, hz, j) > 0 {
      SameLater(x, y, hz, j + 1);
    }
  }

  /** A SHORT task becomes overdue with exactly the last tick of its budget, not before. */
  lemma {:induction false} OverdueAfterBudget(x: Rec, hz: Hz, n: nat)
    requires IsShort(x) && n <= Budget(x, hz)
    ensures Ticked(x, hz, n).overdue <==> n == Budget(x, hz)
    decreases n
  {
    if n > 0 {
      TickSpendsOne(x, hz);
      var y := TickShort(x, hz).rec;
      if !y.overdue {
        OverdueAfterBudget(y, hz, n - 1);
      }
    }
  }

  /** The slice of the k-th trial of a request for T ticks, rounded down. */
  function Share(T: nat, k: nat): nat
    requires k > 0
  {
    T / k
  }

  /** The sum of the first n slices of a request for T ticks: T + T/2 + ... + T/n. */
  function SliceSum(T: nat, n: nat): nat {
    if n == 0 then 0 else SliceSum(T, n - 1) + Share(T, n)
  }

  lemma ShortSliceValue(r: int, hz: Hz, j: nat)
    requires 0 <= r <= 5000
    ensures 0 <= r * hz <= 2_000_000_000
    ensures ShortSlice(r, hz, j) == (r * hz / 1000) / (j + 1)
  {
    MulMono(r, 5000, hz);
    SliceOf(r * hz, j);
  }

  lemma MulMono(r: nat, s: nat, k: nat)
    requires r <= s
    ensures 0 <= r * k <= s * k
  {
    assert (s - r) * k >= 0;
  }

  lemma SliceOf(a: int, j: nat)
    requires 0 <= a <= 2_000_000_000
    ensures ToWord(CDiv(CDiv(a, 1000), j + 1)) == (a / 1000) / (j + 1)
  {
    Quotient(a / 1000, j + 1);
  }

  lemma Quotient(a: nat, b: int)
    requires b > 0
    ensures 0 <= a / b <= a
    ensures a / b >= 1 <==> a >= b
  {
    var q := a / b;
    assert a == q * b + a % b;
    if q >= 1 { MulMono(1, q, b); MulMono(1, b, q); }
  }

  lemma ShareRange(T: nat, k: nat)
    requires k > 0
    ensures Share(T, k) >= 1 <==> T >= k
  {
    Quotient(T, k);
  }

  lemma LaterSlicesValue(x: Rec, hz: Hz, j: nat)
    requires 0 <= x.requestedTime <= 5000
    ensures var T := x.requestedTime * hz / 1000;
            var m := if x.trials <= T then x.trials else T;
            j <= m ==> LaterSlices(x, hz, j) == SliceSum(T, m) - SliceSum(T, j)
    decreases x.trials - j
  {
    var T := x.requestedTime * hz / 1000;
    forall i: nat { ShortSliceValue(x.requestedTime, hz, i); }
    ShortSliceValue(x.requestedTime, hz, 0);
    LaterValue(x, hz, j, T);
  }

  lemma {:induction false} LaterValue(x: Rec, hz: Hz, j: nat, T: nat)
    requires forall i: nat :: ShortSlice(x.requestedTime, hz, i) == Share(T, i + 1)
    ensures var m := if x.trials <= T then x.trials else T;
            j <= m ==> LaterSlices(x, hz, j) == SliceSum(T, m) - SliceSum(T, j)
    decreases x.trials - j
  {
    hide Share, ShortSlice;
    ShareRange(T, j + 1);
    if j < x.trials && j < T {
      LaterValue(x, hz, j + 1, T);
    }
  }

  /** Who gets into the SHORT policy: exactly the OTHER tasks whose caller may change them and
      whose parameters are in range. A task that is SHORT already may ask for any time, in
      range or not, by leaving the policy as it is. */
  lemma ShortAdmission(x: Rec, q: Request)
    ensures x.policy.Other? ==>
              (Check(x, q) == Granted(Short) <==>
                 && q.policy == 4 && 1 <= q.requestedTime <= 5000 && 1 <= q.trials <= 50
                 && q.priority == 0 && (q.sameUser || q.capNice))
    ensures x.policy.Fifo? || x.policy.RoundRobin? ==> Check(x, q) != Granted(Short)
    ensures x.policy.Short? && x.overdue ==> Check(x, q).Refused?
    ensures x.policy.Short? && !x.overdue && q.policy < 0 ==>
              (Check(x, q) == Granted(Short) <==> q.priority == 0 && (q.sameUser || q.capNice))
  {
  }

  /** A task that enters SHORT through sched_setscheduler is charged the sum of the first
      min(N, T) slices of T = floor(r * HZ / 1000) ticks, provided that T >= 1. A request
      below one tick is granted a zero slice, which wraps: the task then stays SHORT for
      2^32 ticks. */
  lemma AdmittedBudget(x: Rec, q: Request, hz: Hz)
    requires x.policy.Other? && Check(x, q) == Granted(Short)
    ensures var y := Repolicy(x, Short, q, hz);
            var T := q.requestedTime * hz / 1000;
            && IsShort(y) && y.trial == 0
            && (T >= 1 ==> Budget(y, hz) == SliceSum(T, if q.trials <= T then q.trials else T))
            && (T == 0 ==> y.timeSlice == 0 && Budget(y, hz) == 0x1_0000_0000)
            && (y.timeSlice > 0 <==> q.requestedTime * hz >= 1000)
  {
    var y := Repolicy(x, Short, q, hz);
    var T := q.requestedTime * hz / 1000;
    assert 1 <= q.requestedTime <= 5000 && 1 <= q.trials;
    ShortSliceValue(q.requestedTime, hz, 0);
    ShortSliceValue(q.requestedTime, hz, 1);
    LaterSlicesValue(y, hz, 1);
    assert T / 1 == T && SliceSum(T, 1) == T;
  }
}
