/** The scheduler without its indexes: four roles of 140 FIFO lists, the fields of the
    tasks, and one step function per operation. There is no bitmap, no counter, no
    `array` pointer and no `list_del`: a task is erased from wherever it is. The
    operations of class Runqueue are proved to compute these steps. */
module SchedSpec {
  import opened Lists
  import opened TaskModel

  type Queues = seq<seq<Tid>>

  datatype View = View(q: seq<Queues>, rec: map<Tid, Rec>, curr: Tid, idle: Tid)
  {
    ghost predicate Shaped() {
      && |q| == 4
      && (forall r :: 0 <= r < 4 ==> |q[r]| == MAX_PRIO)
      && curr in rec && idle in rec
    }

    /** p is queued in role r, at its priority. */
    predicate In(r: Role, p: Tid)
      requires Shaped() && p in rec
    {
      0 <= rec[p].prio < MAX_PRIO && p in q[r][rec[p].prio]
    }

    predicate Queued(p: Tid)
      requires Shaped() && p in rec
    {
      In(ACTIVE, p) || In(EXPIRED, p) || In(SHORT_Q, p) || In(OVERDUE_Q, p)
    }

    function RoleOf(p: Tid): (r: Role)
      requires Shaped() && p in rec && Queued(p)
      ensures In(r, p)
    {
      if In(ACTIVE, p) then ACTIVE
      else if In(EXPIRED, p) then EXPIRED
      else if In(SHORT_Q, p) then SHORT_Q
      else OVERDUE_Q
    }

    /** Every queued task is queued once, at its priority, in a role its policy allows;
        expired holds only tasks of the OTHER policy; the idle task is never queued. */
    ghost predicate Inv() {
      && Shaped()
      && (forall r, k :: 0 <= r < 4 && 0 <= k < MAX_PRIO ==> Cell(q[r][k], r, k, rec))
      && (forall k :: 0 <= k < MAX_PRIO ==> Apart(q[ACTIVE][k], q[EXPIRED][k]))
      && (forall t :: t in rec && t != idle ==> RecOk(rec[t]))
      && rec[idle].prio == MAX_PRIO && rec[idle].policy.Other? && rec[idle].state.Running?
    }

    /** The running task is on the runqueue, unless it is the idle task. */
    predicate CurrQueued()
      requires Shaped()
    {
      curr == idle || Queued(curr)
    }
  }

  predicate Placed(q: seq<Tid>, r: Role, k: int, rec: map<Tid, Rec>) {
    q == [] || (q[0] in rec && rec[q[0]].prio == k && Fits(r, rec[q[0]]) && Placed(q[1..], r, k, rec))
  }

  /** The list of role r and priority k holds only its own tasks, each once. */
  predicate Cell(q: seq<Tid>, r: Role, k: int, rec: map<Tid, Rec>) {
    Distinct(q) && Placed(q, r, k, rec)
  }

  predicate Apart(a: seq<Tid>, b: seq<Tid>) {
    a == [] || (a[0] !in b && Apart(a[1..], b))
  }

  function EraseAll(qs: Queues, p: Tid): (r: Queues)
    ensures |r| == |qs|
  {
    seq(|qs|, k requires 0 <= k < |qs| => Remove(qs[k], p))
  }

  function Erase(v: View, p: Tid): View
    requires v.Shaped()
  {
    v.(q := [EraseAll(v.q[0], p), EraseAll(v.q[1], p), EraseAll(v.q[2], p), EraseAll(v.q[3], p)])
  }

  function SetRec(v: View, p: Tid, x: Rec): View { v.(rec := v.rec[p := x]) }

  function InsertAt(qs: Queues, k: nat, i: nat, p: Tid): Queues
    requires k < |qs| && i <= |qs[k]|
  {
    qs[k := Insert(qs[k], i, p)]
  }

  /** Take p off every list, give it the fields x and queue it at position i of role r. */
  function Place(v: View, p: Tid, x: Rec, r: Role, i: nat): (w: View)
    requires v.Shaped() && 0 <= x.prio < MAX_PRIO && i <= |Remove(v.q[r][x.prio], p)|
    ensures w.Shaped() && w.rec == v.rec[p := x] && w.curr == v.curr && w.idle == v.idle
  {
    var w := Erase(SetRec(v, p, x), p);
    w.(q := w.q[r := InsertAt(w.q[r], x.prio, i, p)])
  }

  function ToTail(v: View, p: Tid, x: Rec, r: Role): (w: View)
    requires v.Shaped() && 0 <= x.prio < MAX_PRIO
    ensures w.Shaped() && w.rec == v.rec[p := x] && w.curr == v.curr && w.idle == v.idle
  {
    Place(v, p, x, r, |Remove(v.q[r][x.prio], p)|)
  }

  /** The first occupied list at or after k, or |qs|. */
  function FirstFrom(qs: Queues, k: nat): (i: nat)
    requires k <= |qs|
    ensures k <= i <= |qs|
    ensures forall j :: k <= j < i ==> qs[j] == []
    ensures i < |qs| ==> qs[i] != []
    decreases |qs| - k
  {
    if k == |qs| || qs[k] != [] then k else FirstFrom(qs, k + 1)
  }

  function First(qs: Queues): nat { FirstFrom(qs, 0) }

  predicate Vacant(qs: Queues) { First(qs) == |qs| }

  function Head(qs: Queues): Tid
    requires !Vacant(qs)
  {
    qs[First(qs)][0]
  }

  function Resched(v: View): View
    requires v.Shaped()
  {
    SetRec(v, v.curr, v.rec[v.curr].(needResched := true))
  }

  /** The part of a task's fields that decides where it may be queued. */
  predicate SamePlace(x: Rec, y: Rec) {
    x.prio == y.prio && x.policy == y.policy && x.overdue == y.overdue
  }

  /** Empty queues, with the boot task idle and running. */
  function Boot(boot: Tid, i: Rec): View {
    var qs := seq(MAX_PRIO, _ => []);
    View([qs, qs, qs, qs], map[boot := i], boot, boot)
  }

  // ---- the operations -------------------------------------------------------------

  function Tick(v: View, hz: Hz, toExpired: bool): View
    requires v.Shaped() && (v.curr != v.idle ==> RecOk(v.rec[v.curr]))
  {
    if v.curr == v.idle then v
    else
      var out := TickRec(v.rec[v.curr], hz, v.In(ACTIVE, v.curr), toExpired);
      TickRecOk(v.rec[v.curr], hz, v.In(ACTIVE, v.curr), toExpired);
      if out.move.Stay? then SetRec(v, v.curr, out.rec)
      else ToTail(v, v.curr, out.rec, out.move.role)
  }

  function ActivateRec(x: Rec, hz: Hz, sleepTime: nat): Rec {
    if IsRt(x) || sleepTime == 0 then x
    else
      var y := x.(sleepAvg := if x.sleepAvg + sleepTime > 2 * hz then 2 * hz else x.sleepAvg + sleepTime);
      y.(prio := EffectivePrio(y, hz))
  }

  function Activate(v: View, p: Tid, hz: Hz, sleepTime: nat): View
    requires v.Shaped() && p in v.rec && RecOk(v.rec[p])
  {
    ToTail(v, p, ActivateRec(v.rec[p], hz, sleepTime), Home(v.rec[p]))
  }

  function TryToWakeUp(v: View, p: Tid, hz: Hz, sleepTime: nat): View
    requires v.Shaped() && p in v.rec && RecOk(v.rec[p])
  {
    var x := v.rec[p].(state := Running);
    if v.Queued(p) then SetRec(v, p, x)
    else
      var w := Activate(SetRec(v, p, x), p, hz, sleepTime);
      if w.rec[p].prio < w.rec[w.curr].prio then Resched(w) else w
  }

  /** The pick of schedule(): real-time first, then SHORT, then OTHER, then overdue. */
  function Pick(v: View): Tid
    requires v.Shaped()
  {
    if First(v.q[ACTIVE]) < MAX_RT_PRIO then Head(v.q[ACTIVE])
    else if !Vacant(v.q[SHORT_Q]) then Head(v.q[SHORT_Q])
    else if !Vacant(v.q[ACTIVE]) then Head(v.q[ACTIVE])
    else if !Vacant(v.q[OVERDUE_Q]) then Head(v.q[OVERDUE_Q])
    else v.idle
  }

  /** What schedule() does with the outgoing task. */
  function Leave(v: View, signalPending: bool): (w: View)
    requires v.Shaped()
    ensures w.Shaped()
  {
    var x := v.rec[v.curr];
    if x.state.Interruptible? && signalPending then SetRec(v, v.curr, x.(state := Running))
    else if x.state.Running? then v
    else Erase(v, v.curr)
  }

  predicate Empty(v: View)
    requires v.Shaped()
  {
    Vacant(v.q[ACTIVE]) && Vacant(v.q[EXPIRED]) && Vacant(v.q[SHORT_Q]) && Vacant(v.q[OVERDUE_Q])
  }

  /** The array switch: expired becomes active once active has run dry. */
  function SwitchArrays(v: View): (w: View)
    requires v.Shaped()
    ensures w.Shaped()
  {
    if Vacant(v.q[ACTIVE]) && !Empty(v) then v.(q := v.q[ACTIVE := v.q[EXPIRED]][EXPIRED := v.q[ACTIVE]]) else v
  }

  /** The second half of schedule(): the array switch, the pick and the switch to it. */
  function Chosen(v: View): View
    requires v.Shaped()
  {
    var w := SwitchArrays(v);
    var next := Pick(w);
    SetRec(w, v.curr, w.rec[v.curr].(needResched := false)).(curr := next)
  }

  function Schedule(v: View, signalPending: bool): View
    requires v.Shaped()
  {
    Chosen(Leave(v, signalPending))
  }

  function SetUserNice(v: View, p: Tid, nice: int): View
    requires v.Shaped() && p in v.rec && RecOk(v.rec[p])
  {
    var x := v.rec[p];
    var prio := MAX_RT_PRIO + nice + 20;
    if x.staticPrio == prio || nice < -20 || nice > 19 || x.policy.Short? then v
    else if IsRt(x) then SetRec(v, p, x.(staticPrio := prio))
    else if !v.Queued(p) then SetRec(v, p, x.(staticPrio := prio, prio := prio))
    else
      var w := ToTail(v, p, x.(staticPrio := prio, prio := prio), v.RoleOf(p));
      if p == v.curr then Resched(w) else w
  }

  /** Where sys_sched_yield links the running task in again, given the lists without it:
      a real-time task at the tail of its list; another task behind the head of its list,
      or, if it was alone there, behind the head of the next occupied list. */
  function YieldPrio(rest: Queues, k: nat, rt: bool): (j: nat)
    requires k < |rest|
    ensures j < |rest|
  {
    if rt || rest[k] != [] || First(rest) == |rest| || First(rest) <= k then k else First(rest)
  }

  function YieldIndex(q: seq<Tid>, rt: bool): (i: nat)
    ensures i <= |q|
  {
    if rt then |q| else if q == [] then 0 else 1
  }

  function YieldPlace(v: View): View
    requires v.Shaped() && v.Queued(v.curr) && RecOk(v.rec[v.curr])
  {
    var p, x, r := v.curr, v.rec[v.curr], v.RoleOf(v.curr);
    var rest := EraseAll(v.q[r], p);
    var j := YieldPrio(rest, x.prio, IsRt(x));
    Place(v, p, x.(prio := j), r, YieldIndex(rest[j], IsRt(x)))
  }

  datatype Error = EINVAL | EPERM

  datatype Verdict = Refused(error: Error) | Granted(policy: Policy)

  /** The arguments of sched_setscheduler; a negative policy number keeps the policy. */
  datatype Request = Request(
    policy: int, priority: int, requestedTime: int, trials: int, sameUser: bool, capNice: bool)

  function Check(x: Rec, q: Request): Verdict {
    if q.policy == 4 && (q.requestedTime > 5000 || q.requestedTime < 1 || q.trials < 1 || q.trials > 50) then
      Refused(EINVAL)
    else if q.policy >= 0 && q.policy !in {0, 1, 2, 4} then Refused(EINVAL)
    else
      var policy := if q.policy < 0 then x.policy else if q.policy == 0 then Other
                    else if q.policy == 1 then Fifo else if q.policy == 2 then RoundRobin else Short;
      var rt := policy.Fifo? || policy.RoundRobin?;
      if q.priority < 0 || q.priority > MAX_RT_PRIO - 1 then Refused(EINVAL)
      else if !rt != (q.priority == 0) then Refused(EINVAL)
      else if rt && !q.capNice then Refused(EPERM)
      else if !q.sameUser && !q.capNice then Refused(EPERM)
      else if (x.policy.Fifo? || x.policy.RoundRobin?) && policy.Short? then Refused(EPERM)
      else if x.policy.Short? && x.overdue then Refused(EPERM)
      else Granted(policy)
  }

  /** The fields after a granted request that is not SHORT to SHORT. */
  function Repolicy(x: Rec, policy: Policy, q: Request, hz: Hz): Rec {
    var y := if x.policy.Other? && policy.Short?
             then x.(requestedTime := q.requestedTime, trials := q.trials, trial := 0, overdue := false,
                     timeSlice := ShortSlice(q.requestedTime, hz, 0))
             else x;
    y.(policy := policy, rtPriority := q.priority,
       prio := if policy.Fifo? || policy.RoundRobin? then MAX_RT_PRIO - 1 - q.priority else x.staticPrio)
  }

  function SetScheduler(v: View, p: Tid, q: Request, hz: Hz, sleepTime: nat): View
    requires v.Shaped() && p in v.rec && RecOk(v.rec[p])
  {
    var x := v.rec[p];
    match Check(x, q)
    case Refused(_) => v
    case Granted(policy) =>
      if x.policy.Short? && policy.Short? then
        SetRec(Erase(v, p), p, x.(requestedTime := q.requestedTime))
      else
        var y := Repolicy(x, policy, q, hz);
        var w := SetRec(v, p, y);
        var u := if v.Queued(p) then Activate(w, p, hz, sleepTime) else w;
        if policy.Short? then Resched(u) else u
  }

  /** What do_fork writes into parent and child; a parent left with nothing gets one
      tick back. */
  function SplitView(v: View, child: Tid): View
    requires v.Shaped()
  {
    var split := ForkSplit(v.rec[v.curr]);
    SetRec(SetRec(v, v.curr, KeepTick(split.parent)), child, split.child)
  }

  /** The split, and the tick that a parent with a single tick left takes at once. */
  function AfterSplit(v: View, child: Tid, hz: Hz, toExpired: bool): (w: View)
    requires v.Shaped() && RecOk(v.rec[v.curr]) && child != v.curr && child !in v.rec
    ensures w.Shaped() && w.curr == v.curr && RecOk(w.rec[w.curr])
    ensures child in w.rec && w.rec[child] == ForkSplit(v.rec[v.curr]).child
  {
    var u := SplitView(v, child);
    TickRecOk(u.rec[u.curr], hz, u.In(ACTIVE, u.curr), toExpired);
    if ForkSplit(v.rec[v.curr]).parent.timeSlice == 0 then Tick(u, hz, toExpired) else u
  }

  /** The child's fields when wake_up_forked_process queues it. */
  function ChildRec(x: Rec, hz: Hz): Rec {
    var y := x.(state := Running);
    if IsRt(y) then y
    else
      var z := y.(sleepAvg := y.sleepAvg * 95 / 100);
      z.(prio := EffectivePrio(z, hz))
  }

  /** wake_up_forked_process. */
  function WakeForked(v: View, child: Tid, hz: Hz, parentSlept: nat, childSlept: nat): View
    requires v.Shaped() && child in v.rec && child != v.curr && RecOk(v.rec[child]) && RecOk(v.rec[v.curr])
  {
    var w := if v.rec[child].policy.Short? then Activate(v, v.curr, hz, parentSlept) else v;
    Activate(SetRec(w, child, ChildRec(w.rec[child], hz)), child, hz, childSlept)
  }

  /** do_fork from the slice split to the wake-up of the child. `toExpired` is the
      interactivity test of the tick taken by a parent with a single tick left; the last
      two arguments are the times since the two sleep stamps. */
  function Fork(v: View, child: Tid, hz: Hz, toExpired: bool, parentSlept: nat, childSlept: nat): View
    requires v.Shaped() && RecOk(v.rec[v.curr]) && child !in v.rec
  {
    WakeForked(AfterSplit(v, child, hz, toExpired), child, hz, parentSlept, childSlept)
  }

  /** sys_wait4 on a child that has died: sched_exit, and the child is no task any more. */
  function ReapChild(v: View, child: Tid, hz: Hz): (w: View)
    requires v.Shaped() && child in v.rec && child != v.curr && child != v.idle
    ensures w.Shaped() && w.curr == v.curr && w.idle == v.idle && w.rec.Keys == v.rec.Keys - {child}
  {
    var w := SetRec(v, v.curr, Reap(v.rec[v.curr], v.rec[child], hz));
    w.(rec := w.rec - {child})
  }

  // ---- a task changes processors ------------------------------------------------------------

  /** The runqueue that loses p. */
  function Give(v: View, p: Tid): (w: View)
    requires v.Shaped() && p != v.curr && p != v.idle
    ensures w.Shaped() && w.curr == v.curr && w.idle == v.idle && w.rec == v.rec - {p}
  {
    Erase(v, p).(rec := v.rec - {p})
  }

  /** The runqueue that gets p with the fields x, and reschedules if p is better. */
  function Take(v: View, p: Tid, x: Rec): (w: View)
    requires v.Shaped() && 0 <= x.prio < MAX_PRIO
    ensures w.Shaped() && w.curr == v.curr && w.idle == v.idle
  {
    var w := ToTail(v, p, x, ACTIVE);
    if x.prio < w.rec[w.curr].prio then Resched(w) else w
  }

  /** p may leave v: it waits in the active or the expired array. */
  ghost predicate Movable(v: View, p: Tid) {
    v.Inv() && p in v.rec && (v.In(ACTIVE, p) || v.In(EXPIRED, p)) && p != v.curr
  }
}
