/** Runs of ticks, forks and reaps over a growing and shrinking family of tasks: what
    happens to the trials, the slices and the remaining time in total. */
module ForkTrees {
  import opened TaskModel
  import opened ShortBudget
  import opened SchedSpec

  type Family = seq<Rec>

  /** `inActive` and `toExpired` are the inputs of the tick; a fork takes a tick at once
      when it leaves the parent nothing. A task whose parent dies loses its first_time_slice. */
  datatype Event =
    | TickOf(i: nat, inActive: bool, toExpired: bool)
    | ForkOf(i: nat, inActive: bool, toExpired: bool)
    | ReapOf(i: nat, child: nat)
    | OrphanOf(i: nat)

  predicate Legal(s: Family, e: Event) {
    e.i < |s| && (e.ReapOf? ==> e.child < |s| && e.child != e.i)
  }

  /** The parent after a fork. */
  function Forked(x: Rec, hz: Hz, inActive: bool, toExpired: bool): Rec {
    var parent := ForkSplit(x).parent;
    if parent.timeSlice == 0 then TickRec(KeepTick(parent), hz, inActive, toExpired).rec else parent
  }

  function Without<T>(s: seq<T>, i: nat): seq<T>
    requires i < |s|
  {
    s[..i] + s[i + 1..]
  }

  function Apply(s: Family, hz: Hz, e: Event): Family
    requires Legal(s, e)
  {
    match e
    case TickOf(i, inActive, toExpired) => s[i := TickRec(s[i], hz, inActive, toExpired).rec]
    case ForkOf(i, inActive, toExpired) =>
      s[i := Forked(s[i], hz, inActive, toExpired)] + [ForkSplit(s[i]).child]
    case ReapOf(i, child) => Without(s[i := Reap(s[i], s[child], hz)], child)
    case OrphanOf(i) => s[i := s[i].(firstTimeSlice := false)]
  }

  // ---- sums over families -----------------------------------------------------------

  function Sum(s: Family, f: Rec -> int): int {
    if s == [] then 0 else f(s[0]) + Sum(s[1..], f)
  }

  lemma {:induction false} SumUpdate(s: Family, f: Rec -> int, i: nat, x: Rec)
    requires i < |s|
    ensures Sum(s[i := x], f) == Sum(s, f) - f(s[i]) + f(x)
    decreases i
  {
    if i > 0 {
      SumUpdate(s[1..], f, i - 1, x);
      assert s[i := x][1..] == s[1..][i - 1 := x];
    }
  }

  lemma {:induction false} SumAppend(s: Family, f: Rec -> int, x: Rec)
    ensures Sum(s + [x], f) == Sum(s, f) + f(x)
  {
    if s != [] {
      SumAppend(s[1..], f, x);
      assert (s + [x])[1..] == s[1..] + [x];
    } else {
      assert ([x])[1..] == [];
      assert s + [x] == [x];
    }
  }

  lemma {:induction false} SumWithout(s: Family, f: Rec -> int, i: nat)
    requires i < |s|
    ensures Sum(Without(s, i), f) == Sum(s, f) - f(s[i])
    decreases i
  {
    if i == 0 {
      assert Without(s, 0) == s[1..];
    } else {
      SumWithout(s[1..], f, i - 1);
      assert Without(s, i)[0] == s[0];
      assert Without(s, i)[1..] == Without(s[1..], i - 1);
    }
  }

  /** The change of a sum, task by task. */
  function Change(s: Family, hz: Hz, e: Event, f: Rec -> int): int
    requires Legal(s, e)
  {
    match e
    case TickOf(i, a, x) => f(TickRec(s[i], hz, a, x).rec) - f(s[i])
    case ForkOf(i, a, x) => f(Forked(s[i], hz, a, x)) + f(ForkSplit(s[i]).child) - f(s[i])
    case ReapOf(i, child) => f(Reap(s[i], s[child], hz)) - f(s[i]) - f(s[child])
    case OrphanOf(i) => f(s[i].(firstTimeSlice := false)) - f(s[i])
  }

  lemma SumApply(s: Family, hz: Hz, e: Event, f: Rec -> int)
    requires Legal(s, e)
    ensures Sum(Apply(s, hz, e), f) == Sum(s, f) + Change(s, hz, e, f)
  {
    match e
    case TickOf(i, a, x) => SumUpdate(s, f, i, TickRec(s[i], hz, a, x).rec);
    case ForkOf(i, a, x) =>
      SumUpdate(s, f, i, Forked(s[i], hz, a, x));
      SumAppend(s[i := Forked(s[i], hz, a, x)], f, ForkSplit(s[i]).child);
    case ReapOf(i, child) =>
      SumUpdate(s, f, i, Reap(s[i], s[child], hz));
      SumWithout(s[i := Reap(s[i], s[child], hz)], f, child);
    case OrphanOf(i) => SumUpdate(s, f, i, s[i].(firstTimeSlice := false));
  }

  // ---- trials -------------------------------------------------------------------------

  /** The trials a task has left. After a fork the parent's count can be negative. */
  function TrialsLeft(x: Rec): int {
    if IsShort(x) && x.trials > x.trial then x.trials - x.trial else 0
  }

  lemma TickTrials(x: Rec, hz: Hz, inActive: bool, toExpired: bool)
    ensures TrialsLeft(TickRec(x, hz, inActive, toExpired).rec) <= TrialsLeft(x)
  {
  }

  /** A fork shares the trials out: parent and child together never have more than the
      parent had. If no trial had been used the split loses none; one may be lost by the
      tick that a parent with a single tick left takes at once. */
  lemma ForkTrials(x: Rec, hz: Hz, inActive: bool, toExpired: bool)
    ensures TrialsLeft(Forked(x, hz, inActive, toExpired)) + TrialsLeft(ForkSplit(x).child) <= TrialsLeft(x)
    ensures x.trial == 0 ==>
              TrialsLeft(KeepTick(ForkSplit(x).parent)) + TrialsLeft(ForkSplit(x).child) == TrialsLeft(x)
    ensures x.trial == 0 && x.timeSlice >= 2 ==>
              TrialsLeft(Forked(x, hz, inActive, toExpired)) + TrialsLeft(ForkSplit(x).child) == TrialsLeft(x)
  {
    var parent := ForkSplit(x).parent;
    TickTrials(KeepTick(parent), hz, inActive, toExpired);
  }

  /** When the split loses trials: it rounds two different bases down, so it loses none
      exactly if the used trials cannot make a difference. */
  lemma SplitConserves(x: Rec)
    requires IsShort(x)
    ensures var split, left := ForkSplit(x), x.trials - x.trial;
            TrialsLeft(KeepTick(split.parent)) + TrialsLeft(split.child) == TrialsLeft(x)
            <==> x.trial == 0 || left <= 1 || (x.trial == 1 && left % 2 == 1)
  {
  }

  /** When the split leaves the parent no trial: half of all trials is compared with the
      trials used. The parent stays SHORT and ends its current slice as its last. */
  lemma SplitSpendsParent(x: Rec, hz: Hz)
    requires IsShort(x)
    ensures var p := KeepTick(ForkSplit(x).parent);
            && IsShort(p)
            && (TrialsLeft(p) == 0 <==> x.trials < 2 * (x.trial + 1))
            && (TrialsLeft(p) <= 1 ==> LaterSlices(p, hz, p.trial + 1) == 0)
  {
  }

  /** sys_remaining_trials of a SHORT task. */
  function RemainingTrials(x: Rec): int { if x.overdue then 0 else x.trials - x.trial }

  /** It agrees with the trials a task has left but for parents: after a fork it reports a
      negative number for a parent that had used more than half of its trials. */
  lemma ReportsNegative(x: Rec)
    requires IsShort(x)
    ensures var p, c := KeepTick(ForkSplit(x).parent), ForkSplit(x).child;
            && (RemainingTrials(p) < 0 <==> x.trials / 2 < x.trial)
            && (RemainingTrials(p) >= 0 ==> RemainingTrials(p) == TrialsLeft(p))
            && (x.trials >= x.trial ==> RemainingTrials(c) == TrialsLeft(c))
  {
  }

  // ---- time slices --------------------------------------------------------------------

  /** Ticks charged to the slice by one tick. */
  function Charged(x: Rec, inActive: bool): nat {
    if IsShort(x) then 1
    else if x.policy.Short? || !inActive || (IsRt(x) && !x.policy.RoundRobin?) then 0
    else 1
  }

  /** The slice granted by a tick that ends a slice. */
  function Refill(x: Rec, hz: Hz, inActive: bool, toExpired: bool): nat {
    if Charged(x, inActive) == 1 && Dec(x.timeSlice) == 0 then TickRec(x, hz, inActive, toExpired).rec.timeSlice
    else 0
  }

  /** The books of a run: ticks charged, slices granted, forks made with one tick left. */
  datatype Books = Books(charged: nat, granted: nat, lastTicks: nat)

  function Entry(s: Family, hz: Hz, e: Event, b: Books): Books
    requires Legal(s, e)
  {
    match e
    case TickOf(i, a, x) =>
      b.(charged := b.charged + Charged(s[i], a), granted := b.granted + Refill(s[i], hz, a, x))
    case ForkOf(i, a, x) =>
      var parent := ForkSplit(s[i]).parent;
      if parent.timeSlice == 0 then
        var y := KeepTick(parent);
        Books(b.charged + Charged(y, a), b.granted + Refill(y, hz, a, x), b.lastTicks + 1)
      else b
    case ReapOf(_, _) => b
    case OrphanOf(_) => b
  }

  /** Slices stay positive and far from the 32-bit wrap-around. */
  predicate Sane(x: Rec, hz: Hz) {
    && 1 <= x.timeSlice < 0x8000_0000
    && MAX_RT_PRIO <= x.staticPrio < MAX_PRIO
    && (x.policy.Short? ==> 0 <= CDiv(x.requestedTime * hz, 1000) < 0x8000_0000)
  }

  lemma ShortSliceRange(x: Rec, hz: Hz, j: nat)
    requires 0 <= CDiv(x.requestedTime * hz, 1000) < 0x8000_0000
    ensures ShortSlice(x.requestedTime, hz, j) < 0x8000_0000
  {
    Quotient(CDiv(x.requestedTime * hz, 1000), j + 1);
  }

  lemma TickSlice(x: Rec, hz: Hz, inActive: bool, toExpired: bool)
    requires Sane(x, hz)
    ensures var y := TickRec(x, hz, inActive, toExpired).rec;
            Sane(y, hz) && y.timeSlice + Charged(x, inActive) == x.timeSlice + Refill(x, hz, inActive, toExpired)
  {
    hide CDiv, TaskSlice, EffectivePrio, ShortSlice;
    if x.policy.Short? {
      ShortTickSlice(x, hz, inActive, toExpired);
    } else {
      SliceRange(x.staticPrio, hz);
      MaxSliceRange(hz);
    }
  }

  lemma ShortTickSlice(x: Rec, hz: Hz, inActive: bool, toExpired: bool)
    requires Sane(x, hz) && x.policy.Short?
    ensures var y := TickRec(x, hz, inActive, toExpired).rec;
            Sane(y, hz) && y.timeSlice + Charged(x, inActive) == x.timeSlice + Refill(x, hz, inActive, toExpired)
  {
    hide CDiv, ShortSlice, TickRt, TickOther;
    ShortSliceRange(x, hz, x.trial + 1);
  }

  lemma MaxSliceRange(hz: Hz)
    ensures 30 <= MaxSlice(hz) <= 120_000
  {
  }

  lemma Halves(w: Word)
    requires w < 0x8000_0000
    ensures ToWord(w + 1) / 2 + w / 2 == w
  {
  }

  lemma SaneLike(x: Rec, y: Rec, hz: Hz)
    requires Sane(x, hz) && 1 <= y.timeSlice <= x.timeSlice
    requires y.staticPrio == x.staticPrio && y.policy == x.policy && y.requestedTime == x.requestedTime
    ensures Sane(y, hz)
  {
  }

  lemma ForkSlice(x: Rec, hz: Hz, inActive: bool, toExpired: bool)
    requires Sane(x, hz)
    ensures var p, c, y := Forked(x, hz, inActive, toExpired), ForkSplit(x).child, KeepTick(ForkSplit(x).parent);
            && Sane(p, hz) && Sane(c, hz)
            && if x.timeSlice == 1
               then p.timeSlice + c.timeSlice + Charged(y, inActive)
                    == x.timeSlice + Refill(y, hz, inActive, toExpired) + 1
               else p.timeSlice + c.timeSlice == x.timeSlice
  {
    assert 1 <= x.timeSlice < 0x8000_0000;
    hide CDiv, TickRec, Charged, Refill, Sane, ToWord;
    Halves(x.timeSlice);
    SaneLike(x, ForkSplit(x).child, hz);
    SaneLike(x, KeepTick(ForkSplit(x).parent), hz);
    TickSlice(KeepTick(ForkSplit(x).parent), hz, inActive, toExpired);
  }

  /** Reaping a child never manufactures time. */
  lemma ReapSlice(p: Rec, c: Rec, hz: Hz)
    requires Sane(p, hz) && Sane(c, hz)
    ensures Sane(Reap(p, c, hz), hz) && Reap(p, c, hz).timeSlice <= p.timeSlice + c.timeSlice
  {
    hide CDiv, MaxSlice;
    MaxSliceRange(hz);
  }

  // ---- remaining time -----------------------------------------------------------------

  /** sys_remaining_time of a SHORT task that is not overdue, in milliseconds. */
  function RemainingTime(x: Rec, hz: Hz): Word { ToWord(x.timeSlice * 1000) / hz }

  /** The slice of trial k of a request, counted from one. */
  function RequestShare(r: nat, hz: Hz, k: nat): nat
    requires k > 0
  {
    (r * hz / 1000) / k
  }

  /** The slice is no more than the share of the request that the trial may use. */
  predicate WithinShare(x: Rec, hz: Hz) {
    IsShort(x) ==>
      0 <= x.requestedTime <= 5000 && 1 <= x.timeSlice <= RequestShare(x.requestedTime, hz, x.trial + 1)
  }

  /** An admission through sched_setscheduler starts within its share exactly when the
      request is worth at least one tick. */
  lemma AdmittedWithinShare(x: Rec, q: Request, hz: Hz)
    requires x.policy.Other? && Check(x, q) == Granted(Short)
    ensures WithinShare(Repolicy(x, Short, q, hz), hz) <==> q.requestedTime * hz >= 1000
  {
    AdmittedBudget(x, q, hz);
    ShortSliceValue(q.requestedTime, hz, 0);
    var T := q.requestedTime * hz / 1000;
    assert T / 1 == T;
  }

  lemma TickShare(x: Rec, hz: Hz, inActive: bool, toExpired: bool)
    requires WithinShare(x, hz)
    ensures WithinShare(TickRec(x, hz, inActive, toExpired).rec, hz)
  {
    if IsShort(x) {
      ShortSliceValue(x.requestedTime, hz, x.trial + 1);
    }
  }

  lemma ShareShrinks(r: nat, hz: Hz, k: nat)
    requires k > 0
    ensures RequestShare(r, hz, k) <= RequestShare(r, hz, 1)
  {
    Quotient(r * hz / 1000, k);
  }

  lemma ForkShare(x: Rec, hz: Hz, inActive: bool, toExpired: bool)
    requires WithinShare(x, hz)
    ensures WithinShare(Forked(x, hz, inActive, toExpired), hz) && WithinShare(ForkSplit(x).child, hz)
  {
    hide RequestShare, TickRec;
    if IsShort(x) {
      ShareShrinks(x.requestedTime, hz, x.trial + 1);
      ShareTimesTrial(x.requestedTime, hz, x.trial + 1, x.timeSlice);
    }
    TickShare(KeepTick(ForkSplit(x).parent), hz, inActive, toExpired);
  }

  /** What the remaining time amounts to over all trials stays within the request. */
  lemma RemainingWithinRequest(x: Rec, hz: Hz)
    requires IsShort(x) && WithinShare(x, hz)
    ensures RemainingTime(x, hz) * (x.trial + 1) <= x.requestedTime
  {
    var r, t, k := x.requestedTime, x.timeSlice, x.trial + 1;
    ShareTimesTrial(r, hz, k, t);
    Floor(t * 1000, hz);
    Regroup(t * 1000 / hz, hz, k, t, r);
  }

  lemma ShareTimesTrial(r: nat, hz: Hz, k: nat, t: nat)
    requires k > 0 && r <= 5000 && t <= RequestShare(r, hz, k)
    ensures t * k * 1000 <= r * hz && t <= 2_000_000
  {
    MulMono(r, 5000, hz);
    var T := r * hz / 1000;
    Quotient(T, k);
    Floor(T, k);
    MulMono(t, T / k, k);
  }

  lemma Floor(a: nat, b: int)
    requires b > 0
    ensures (a / b) * b <= a
  {
  }

  lemma Regroup(m: nat, hz: Hz, k: nat, t: nat, r: nat)
    requires m * hz <= t * 1000 && t * k * 1000 <= r * hz
    ensures m * k <= r
  {
    MulMono(m * hz, t * 1000, k);
    assert (m * k) * hz == (m * hz) * k;
    assert (t * 1000) * k == t * k * 1000;
    if m * k > r {
      MulMono(r + 1, m * k, hz);
    }
  }

  // ---- runs ---------------------------------------------------------------------------

  predicate IsRun(s: Family, hz: Hz, es: seq<Event>)
    decreases |es|
  {
    es == [] || (Legal(s, es[0]) && IsRun(Apply(s, hz, es[0]), hz, es[1..]))
  }

  function After(s: Family, hz: Hz, es: seq<Event>): Family
    requires IsRun(s, hz, es)
    decreases |es|
  {
    if es == [] then s else After(Apply(s, hz, es[0]), hz, es[1..])
  }

  function Account(s: Family, hz: Hz, es: seq<Event>, b: Books): Books
    requires IsRun(s, hz, es)
    decreases |es|
  {
    if es == [] then b else Account(Apply(s, hz, es[0]), hz, es[1..], Entry(s, hz, es[0], b))
  }

  function SliceOfTask(x: Rec): int { x.timeSlice }

  function TotalTrials(s: Family): int { Sum(s, TrialsLeft) }

  function TotalSlices(s: Family): int { Sum(s, SliceOfTask) }

  lemma StepTrials(s: Family, hz: Hz, e: Event)
    requires Legal(s, e)
    ensures TotalTrials(Apply(s, hz, e)) <= TotalTrials(s)
  {
    SumApply(s, hz, e, TrialsLeft);
    match e
    case TickOf(i, a, x) => TickTrials(s[i], hz, a, x);
    case ForkOf(i, a, x) => ForkTrials(s[i], hz, a, x);
    case ReapOf(i, child) =>
    case OrphanOf(i) =>
  }

  /** Over any run of ticks, forks, reaps and deaths of parents the trials left in the family never increase. */
  lemma {:induction false} TrialsNeverGrow(s: Family, hz: Hz, es: seq<Event>)
    requires IsRun(s, hz, es)
    ensures TotalTrials(After(s, hz, es)) <= TotalTrials(s)
    decreases |es|
  {
    if es != [] {
      StepTrials(s, hz, es[0]);
      TrialsNeverGrow(Apply(s, hz, es[0]), hz, es[1..]);
    }
  }

  predicate AllSane(s: Family, hz: Hz) { forall i :: 0 <= i < |s| ==> Sane(s[i], hz) }

  lemma SaneReap(s: Family, hz: Hz, i: nat, child: nat, x: Rec)
    requires AllSane(s, hz) && Sane(x, hz) && i < |s| && child < |s|
    ensures AllSane(Without(s[i := x], child), hz)
  {
    hide Sane;
    var u, w := s[i := x], Without(s[i := x], child);
    forall j | 0 <= j < |w| ensures Sane(w[j], hz) {
      assert w[j] == u[if j < child then j else j + 1];
    }
  }

  lemma OrphanSane(x: Rec, hz: Hz)
    requires Sane(x, hz)
    ensures Sane(x.(firstTimeSlice := false), hz)
  {
  }

  /** Every event balances: reaping may only lose time. */
  lemma StepBalances(s: Family, hz: Hz, e: Event, b: Books)
    requires Legal(s, e) && AllSane(s, hz)
    ensures AllSane(Apply(s, hz, e), hz)
    ensures var c := Entry(s, hz, e, b);
            var gain := TotalSlices(Apply(s, hz, e)) + c.charged - c.granted - c.lastTicks
                        - (TotalSlices(s) + b.charged - b.granted - b.lastTicks);
            gain <= 0 && (!e.ReapOf? ==> gain == 0)
  {
    hide Sane, Reap, Forked, TickRec, ForkSplit, Charged, Refill, KeepTick;
    SumApply(s, hz, e, SliceOfTask);
    match e
    case TickOf(i, a, x) => TickSlice(s[i], hz, a, x);
    case ForkOf(i, a, x) => ForkSlice(s[i], hz, a, x); SplitSlices(s[i], hz);
    case ReapOf(i, child) =>
      ReapSlice(s[i], s[child], hz);
      SaneReap(s, hz, i, child, Reap(s[i], s[child], hz));
    case OrphanOf(i) => OrphanSane(s[i], hz);
  }

  lemma SplitSlices(x: Rec, hz: Hz)
    requires Sane(x, hz)
    ensures ForkSplit(x).parent.timeSlice == 0 <==> x.timeSlice == 1
  {
  }

  /** Slice ledger: over any run every slice stays positive, and the slices plus the ticks
      charged never exceed the initial slices plus the slices granted at expiry plus the
      forks made with a single tick left. Without reaping this is an equality. */
  lemma {:induction false} SliceLedger(s: Family, hz: Hz, es: seq<Event>, b: Books)
    requires IsRun(s, hz, es) && AllSane(s, hz)
    ensures AllSane(After(s, hz, es), hz)
    ensures var c := Account(s, hz, es, b);
            && TotalSlices(After(s, hz, es)) + (c.charged - b.charged)
               <= TotalSlices(s) + (c.granted - b.granted) + (c.lastTicks - b.lastTicks)
            && ((forall e :: e in es ==> !e.ReapOf?) ==>
                  TotalSlices(After(s, hz, es)) + (c.charged - b.charged)
                  == TotalSlices(s) + (c.granted - b.granted) + (c.lastTicks - b.lastTicks))
    decreases |es|
  {
    hide AllSane, TotalSlices, Entry, Apply, Legal;
    if es != [] {
      StepBalances(s, hz, es[0], b);
      SliceLedger(Apply(s, hz, es[0]), hz, es[1..], Entry(s, hz, es[0], b));
    }
  }

  predicate AllWithinShare(s: Family, hz: Hz) { forall i :: 0 <= i < |s| ==> WithinShare(s[i], hz) }

  /** Over any run of ticks and forks, no SHORT task ever reports more remaining time than
      its share of the request: remaining_time * (current_trial + 1) <= requested_time. */
  lemma {:induction false} RemainingTimeBound(s: Family, hz: Hz, es: seq<Event>)
    requires IsRun(s, hz, es) && AllWithinShare(s, hz) && forall e :: e in es ==> !e.ReapOf?
    ensures forall i :: 0 <= i < |After(s, hz, es)| && IsShort(After(s, hz, es)[i]) ==>
              RemainingTime(After(s, hz, es)[i], hz) * (After(s, hz, es)[i].trial + 1)
              <= After(s, hz, es)[i].requestedTime
    decreases |es|
  {
    hide WithinShare, Apply, RemainingTime, Legal;
    if es == [] {
      forall i | 0 <= i < |s| && IsShort(s[i])
        ensures RemainingTime(s[i], hz) * (s[i].trial + 1) <= s[i].requestedTime
      {
        RemainingWithinRequest(s[i], hz);
      }
    } else {
      StepShares(s, hz, es[0]);
      RemainingTimeBound(Apply(s, hz, es[0]), hz, es[1..]);
    }
  }

  lemma StepShares(s: Family, hz: Hz, e: Event)
    requires Legal(s, e) && AllWithinShare(s, hz) && !e.ReapOf?
    ensures AllWithinShare(Apply(s, hz, e), hz)
  {
    hide WithinShare, TickRec, Forked, ForkSplit;
    match e
    case TickOf(i, a, x) => TickShare(s[i], hz, a, x);
    case ForkOf(i, a, x) => ForkShare(s[i], hz, a, x);
    case OrphanOf(i) => OrphanShare(s[i], hz);
  }

  lemma OrphanShare(x: Rec, hz: Hz)
    requires WithinShare(x, hz)
    ensures WithinShare(x.(firstTimeSlice := false), hz)
  {
  }
}
