/** The scheduling fields of a task and the arithmetic the scheduler does on them:
    priorities, time slices, the accounting of one timer tick and the split of a
    time slice at fork. Everything here is about one task; queues come later. */
module TaskModel {

  /** Timer frequency. At least 100, so that MIN_TIMESLICE is at least one tick; at
      most 400000, so that 5000 * HZ fits the C int it is computed in. */
  type Hz = h: int | 100 <= h <= 400_000 witness 100

  /** The address of a task_struct. */
  type Tid = nat

  /** An unsigned 32-bit value. */
  type Word = w: int | 0 <= w < 0x1_0000_0000

  const MAX_RT_PRIO := 100
  const MAX_PRIO := 140

  datatype Policy = Other | Fifo | RoundRobin | Short

  datatype State = Running | Interruptible | Uninterruptible | Zombie | Stopped

  /** The four roles a priority array plays in a runqueue. */
  type Role = r: nat | r < 4

  const ACTIVE: Role := 0
  const EXPIRED: Role := 1
  const SHORT_Q: Role := 2
  const OVERDUE_Q: Role := 3

  /** The scheduling fields of one task. */
  datatype Rec = Rec(
    state: State,
    prio: int,
    staticPrio: int,
    policy: Policy,
    timeSlice: Word,
    firstTimeSlice: bool,
    sleepAvg: nat,
    requestedTime: int,
    trials: int,
    trial: nat,
    overdue: bool,
    rtPriority: int,
    needResched: bool)

  /** What a tick asks of the queues: nothing, or a move to the tail of a role. */
  datatype Move = Stay | Tail(role: Role)

  datatype Outcome = Outcome(rec: Rec, move: Move)

  /** C conversion to unsigned 32 bits. */
  function ToWord(i: int): Word { i % 0x1_0000_0000 }

  /** C division, which truncates toward zero. */
  function CDiv(a: int, b: int): int
    requires b > 0
  {
    if a >= 0 then a / b else -(-a / b)
  }

  /** Decrement of an unsigned 32-bit value: zero wraps around. */
  function Dec(w: Word): Word { ToWord(w - 1) }

  function MinSlice(hz: Hz): int { 10 * hz / 1000 }

  function MaxSlice(hz: Hz): int { 300 * hz / 1000 }

  /** TASK_TIMESLICE: the slice of a task outside the SHORT policy. */
  function TaskSlice(staticPrio: int, hz: Hz): Word {
    ToWord(MinSlice(hz) + CDiv((MaxSlice(hz) - MinSlice(hz)) * (MAX_PRIO - 1 - staticPrio), 39))
  }

  /** SHORT_TIMESLICE: the slice of trial number `trial`, counted from zero. */
  function ShortSlice(requestedTime: int, hz: Hz, trial: nat): Word {
    ToWord(CDiv(CDiv(requestedTime * hz, 1000), trial + 1))
  }

  predicate IsRt(x: Rec) { x.prio < MAX_RT_PRIO }

  function EffectivePrio(x: Rec, hz: Hz): int {
    var bonus :=
      if x.policy.Short? then (if x.overdue then x.staticPrio else 0)
      else (40 * 25 * x.sleepAvg / (2 * hz)) / 100 - 5;
    var prio := x.staticPrio - bonus;
    if prio < MAX_RT_PRIO then MAX_RT_PRIO
    else if prio > MAX_PRIO - 1 then MAX_PRIO - 1
    else prio
  }

  /** The role whose queues activate_task puts a task into. */
  function Home(x: Rec): Role {
    if !x.policy.Short? then ACTIVE else if x.overdue then OVERDUE_Q else SHORT_Q
  }

  datatype Option<+T> = None | Some(value: T)

  /** The per-task consistency every scheduler step keeps. */
  predicate RecOk(x: Rec) {
    && MAX_RT_PRIO <= x.staticPrio < MAX_PRIO
    && (x.overdue ==> x.policy.Short?)
    && (match x.policy
        case Fifo => 0 <= x.prio < MAX_RT_PRIO - 1
        case RoundRobin => 0 <= x.prio < MAX_RT_PRIO - 1
        case Other => MAX_RT_PRIO <= x.prio < MAX_PRIO
        case Short => if x.overdue then x.prio == 0 else MAX_RT_PRIO <= x.prio < MAX_PRIO)
  }

  /** Which tasks a role may hold. */
  predicate Fits(role: Role, x: Rec) {
    if role == ACTIVE then !x.policy.Short?
    else if role == EXPIRED then x.policy.Other?
    else x.policy.Short? && (x.overdue <==> role == OVERDUE_Q)
  }

  /** The accounting of one timer tick. `inActive` says that the task is queued in the
      active array; `toExpired` is the outcome of the interactivity and starvation test. */
  function TickRec(x: Rec, hz: Hz, inActive: bool, toExpired: bool): Outcome {
    if x.policy.Short? then TickShort(x, hz)
    else if !inActive then Outcome(x.(needResched := true), Stay)
    else if IsRt(x) then TickRt(x, hz)
    else TickOther(x, hz, toExpired)
  }

  function TickShort(x: Rec, hz: Hz): Outcome {
    if x.overdue then Outcome(x, Stay)
    else if Dec(x.timeSlice) != 0 then Outcome(x.(timeSlice := Dec(x.timeSlice)), Stay)
    else
      var y := x.(trial := x.trial + 1, firstTimeSlice := false, needResched := true);
      var grant := ShortSlice(y.requestedTime, hz, y.trial);
      if y.trial >= y.trials || grant == 0 then
        Outcome(y.(timeSlice := 1, prio := 0, overdue := true), Tail(OVERDUE_Q))
      else
        Outcome(y.(timeSlice := grant), Tail(SHORT_Q))
  }

  function TickRt(x: Rec, hz: Hz): Outcome {
    if !x.policy.RoundRobin? then Outcome(x, Stay)
    else if Dec(x.timeSlice) != 0 then Outcome(x.(timeSlice := Dec(x.timeSlice)), Stay)
    else
      Outcome(x.(timeSlice := TaskSlice(x.staticPrio, hz), firstTimeSlice := false, needResched := true),
              Tail(ACTIVE))
  }

  function TickOther(x: Rec, hz: Hz, toExpired: bool): Outcome {
    var y := x.(sleepAvg := if x.sleepAvg > 0 then x.sleepAvg - 1 else 0, timeSlice := Dec(x.timeSlice));
    if y.timeSlice != 0 then Outcome(y, Stay)
    else
      Outcome(y.(needResched := true, prio := EffectivePrio(y, hz), firstTimeSlice := false,
                 timeSlice := TaskSlice(y.staticPrio, hz)),
              Tail(if toExpired then EXPIRED else ACTIVE))
  }

  /** The fields of parent and child right after do_fork has split the slice and, for a
      task that is not overdue, the trials. */
  datatype Split = Split(parent: Rec, child: Rec)

  function ForkSplit(x: Rec): Split {
    var child := x.(state := Uninterruptible, timeSlice := ToWord(x.timeSlice + 1) / 2, firstTimeSlice := true);
    var parent := x.(timeSlice := x.timeSlice / 2);
    if x.policy.Short? && !x.overdue then
      Split(parent.(trials := x.trials / 2),
            child.(trials := (x.trials - x.trial + 1) / 2, trial := 0))
    else Split(parent, child)
  }

  /** A parent left without a slice gets one tick back. */
  function KeepTick(x: Rec): Rec {
    if x.timeSlice == 0 then x.(timeSlice := 1) else x
  }

  /** The parent's fields after it reaps a child, sched_exit. */
  function Reap(parent: Rec, child: Rec, hz: Hz): Rec {
    var sum := ToWord(parent.timeSlice + child.timeSlice);
    parent.(
      timeSlice :=
        if !child.firstTimeSlice then parent.timeSlice
        else if sum > MaxSlice(hz) then MaxSlice(hz)
        else sum,
      sleepAvg :=
        if child.sleepAvg < parent.sleepAvg then (parent.sleepAvg * 3 + child.sleepAvg) / 4
        else parent.sleepAvg)
  }

  /** Every slice the scheduler grants outside the SHORT policy lies between the
      documented minimum and maximum, for every nice level. */
  lemma SliceRange(staticPrio: int, hz: Hz)
    requires MAX_RT_PRIO <= staticPrio < MAX_PRIO
    ensures 1 <= MinSlice(hz) <= TaskSlice(staticPrio, hz) <= MaxSlice(hz)
    ensures staticPrio == MAX_RT_PRIO ==> TaskSlice(staticPrio, hz) == MaxSlice(hz)
    ensures staticPrio == MAX_PRIO - 1 ==> TaskSlice(staticPrio, hz) == MinSlice(hz)
  {
    ScaleRange(MaxSlice(hz) - MinSlice(hz), MAX_PRIO - 1 - staticPrio);
  }

  lemma ScaleRange(span: nat, k: nat)
    requires k <= 39
    ensures 0 <= span * k / 39 <= span
    ensures k == 39 ==> span * k / 39 == span
  {
    assert 0 <= span * k <= span * 39;
  }

  /** effective_prio outside the OTHER policy: a SHORT task runs at its static priority, and
      an overdue one would get the best non-real-time priority, not 0. The 0 comes from the
      tick, and it lasts because activate_task leaves priorities below 100 alone. */
  lemma EffectivePrioOfShort(x: Rec, hz: Hz)
    requires RecOk(x) && x.policy.Short?
    ensures EffectivePrio(x, hz) == if x.overdue then MAX_RT_PRIO else x.staticPrio
    ensures EffectivePrio(x, hz) == x.prio <==> !x.overdue && x.prio == x.staticPrio
    ensures x.overdue ==> x.prio == 0 && IsRt(x)
  {
  }

  /** A tick keeps the per-task consistency and never asks for a role the task may not
      enter; in particular an overdue task sits at priority 0 and never leaves. */
  lemma TickRecOk(x: Rec, hz: Hz, inActive: bool, toExpired: bool)
    requires RecOk(x)
    ensures RecOk(TickRec(x, hz, inActive, toExpired).rec)
    ensures TickRec(x, hz, inActive, toExpired).move.Tail? ==>
              Fits(TickRec(x, hz, inActive, toExpired).move.role, TickRec(x, hz, inActive, toExpired).rec)
    ensures TickRec(x, hz, inActive, toExpired).move.Stay? ==>
              && TickRec(x, hz, inActive, toExpired).rec.prio == x.prio
              && TickRec(x, hz, inActive, toExpired).rec.policy == x.policy
              && TickRec(x, hz, inActive, toExpired).rec.overdue == x.overdue
  {
  }
}
