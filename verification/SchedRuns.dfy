/** Whole runs of the scheduler: what every sequence of its steps keeps. */
module SchedRuns {
  import opened Lists
  import opened TaskModel
  import opened SchedSpec
  import opened SchedInvariant

  datatype Step =
    | TickStep(toExpired: bool)
    | ScheduleStep(signalPending: bool)
    | WakeStep(p: Tid, slept: nat)
    | ForkStep(p: Tid, tickToExpired: bool, parentSlept: nat, childSlept: nat)
    | NiceStep(p: Tid, nice: int)
    | PolicyStep(p: Tid, request: Request, slept: nat)
    | YieldStep
    | SetStateStep(state: State)    // current->state = state
    | ReapStep(p: Tid)              // the running task reaps a zombie
    | GiveStep(p: Tid)              // another processor pulls p away
    | TakeStep(p: Tid, rec: Rec)    // p is pulled here, with the fields rec

  /** What the callers of each operation guarantee. Two granted policy requests are not
      among these steps, because they corrupt the runqueue: SHORT to SHORT of the running
      task, which then runs off the queues, and OTHER to SHORT of a task off the queues,
      which leaves its `array` pointer stray. */
  ghost predicate Enabled(v: View, s: Step) {
    && v.Inv() && v.CurrQueued()
    && match s
       case TickStep(_) => true
       case ScheduleStep(_) => true
       case WakeStep(p, _) => p in v.rec && p != v.idle
       case ForkStep(p, _, _, _) => v.curr != v.idle && p !in v.rec
       case NiceStep(p, _) => p in v.rec && p != v.idle
       case PolicyStep(p, q, _) =>
         && p in v.rec && p != v.idle
         && (Check(v.rec[p], q) == Granted(Short) ==>
               (v.rec[p].policy.Other? && v.Queued(p)) || (v.rec[p].policy.Short? && p != v.curr))
       case YieldStep => v.curr != v.idle
       case SetStateStep(_) => v.curr != v.idle
       case ReapStep(p) =>
         v.curr != v.idle && p in v.rec && p != v.curr && p != v.idle && !v.Queued(p) && v.rec[p].state.Zombie?
       case GiveStep(p) => Movable(v, p)
       case TakeStep(p, x) => p !in v.rec && RecOk(x) && !x.policy.Short? && x.state.Running?
  }

  ghost function Next(v: View, hz: Hz, s: Step): View
    requires Enabled(v, s)
  {
    match s
    case TickStep(toExpired) => Tick(v, hz, toExpired)
    case ScheduleStep(signalPending) => Schedule(v, signalPending)
    case WakeStep(p, slept) => TryToWakeUp(v, p, hz, slept)
    case ForkStep(p, toExpired, parentSlept, childSlept) => Fork(v, p, hz, toExpired, parentSlept, childSlept)
    case NiceStep(p, nice) => SetUserNice(v, p, nice)
    case PolicyStep(p, q, slept) => SetScheduler(v, p, q, hz, slept)
    case YieldStep => YieldPlace(v)
    case SetStateStep(state) => SetRec(v, v.curr, v.rec[v.curr].(state := state))
    case ReapStep(p) => ReapChild(v, p, hz)
    case GiveStep(p) => MovableFits(v, p); Give(v, p)
    case TakeStep(p, x) => Take(v, p, x)
  }

  lemma StepKeeps(v: View, hz: Hz, s: Step)
    requires Enabled(v, s)
    ensures Next(v, hz, s).Inv() && Next(v, hz, s).CurrQueued()
  {
    hide View.Inv, Tick, Schedule, TryToWakeUp, Fork, SetUserNice, SetScheduler, YieldPlace, View.RoleOf, Check, Give,
         Take, ReapChild;
    InvShaped(v);
    RecAt(v, v.curr);
    match s
    case TickStep(toExpired) => TickKeeps(v, hz, toExpired);
    case ScheduleStep(signalPending) => ScheduleKeeps(v, signalPending);
    case WakeStep(p, slept) => WakeKeeps(v, p, hz, slept);
    case ForkStep(p, toExpired, parentSlept, childSlept) => ForkKeeps(v, p, hz, toExpired, parentSlept, childSlept);
    case NiceStep(p, nice) => NiceKeeps(v, p, nice);
    case PolicyStep(p, q, slept) => SetSchedulerKeeps(v, p, q, hz, slept);
    case YieldStep => YieldKeeps(v);
    case SetStateStep(state) => SetRecInv(v, v.curr, v.rec[v.curr].(state := state));
    case ReapStep(p) => ReapKeeps(v, p, hz);
    case GiveStep(p) => GiveKeeps(v, p);
    case TakeStep(p, x) => TakeKeeps(v, p, x);
  }

  /** The same fields, but for the resched mark. */
  predicate SameBut(x: Rec, y: Rec) { x.(needResched := false) == y.(needResched := false) }

  /** Task t is on the queues if it was, and its fields are what they were. */
  ghost predicate Alike(v: View, w: View, t: Tid)
    requires v.Shaped() && t in v.rec
  {
    w.Shaped() && w.idle == v.idle && t in w.rec && (w.Queued(t) <==> v.Queued(t)) && SameBut(v.rec[t], w.rec[t])
  }

  lemma PlaceAlike(v: View, p: Tid, x: Rec, r: Role, i: nat, t: Tid)
    requires v.Inv() && t in v.rec && t != p && RecOk(x) && i <= |Remove(v.q[r][x.prio], p)|
    ensures Alike(v, Place(v, p, x, r, i), t)
  {
    forall a: Role { PlaceOthers(v, p, x, r, i, a, t); }
  }

  lemma TailAlike(v: View, p: Tid, y: Rec, x: Rec, r: Role, t: Tid)
    requires v.Inv() && t in v.rec && t != p && RecOk(x)
    ensures Alike(v, ToTail(v, p, x, r), t)
    ensures ToTail(SetRec(v, p, y), p, x, r) == ToTail(v, p, x, r)
  {
    ToTailOver(v, p, y, x, r);
    PlaceAlike(v, p, x, r, |Remove(v.q[r][x.prio], p)|, t);
  }

  lemma ReschedAlike(v: View, t: Tid)
    requires v.Shaped() && t in v.rec
    ensures Alike(v, Resched(v), t)
  {
  }

  /** A wake-up changes nothing about the other tasks, and leaves its task runnable. */
  lemma WakeAlike(v: View, hz: Hz, p: Tid, slept: nat, t: Tid)
    requires v.Inv() && p in v.rec && p != v.idle && t in v.rec && t != p
    ensures Alike(v, TryToWakeUp(v, p, hz, slept), t)
  {
    hide View.Inv, ToTail;
    RecAt(v, p);
    var x := v.rec[p].(state := Running);
    if !v.Queued(p) {
      TailAlike(v, p, x, ActivateRec(x, hz, slept), Home(x), t);
      ReschedAlike(Activate(SetRec(v, p, x), p, hz, slept), t);
    }
  }

  lemma TickAlike(v: View, hz: Hz, toExpired: bool, t: Tid)
    requires v.Inv() && v.CurrQueued() && t in v.rec && t != v.curr
    ensures Alike(v, Tick(v, hz, toExpired), t)
  {
    hide View.Inv, ToTail, TickRec;
    InvShaped(v);
    RecAt(v, v.curr);
    if v.curr != v.idle {
      var x := v.rec[v.curr];
      TickRecOk(x, hz, v.In(ACTIVE, v.curr), toExpired);
      var out := TickRec(x, hz, v.In(ACTIVE, v.curr), toExpired);
      if out.move.Tail? {
        TailAlike(v, v.curr, x, out.rec, out.move.role, t);
      }
    }
  }

  lemma NiceAlike(v: View, p: Tid, nice: int, t: Tid)
    requires v.Inv() && p in v.rec && p != v.idle && t in v.rec && t != p
    ensures RecOk(v.rec[p]) && Alike(v, SetUserNice(v, p, nice), t)
  {
    hide View.Inv, ToTail;
    RecAt(v, p);
    var x := v.rec[p];
    var prio := MAX_RT_PRIO + nice + 20;
    if !(x.staticPrio == prio || nice < -20 || nice > 19 || x.policy.Short? || IsRt(x)) && v.Queued(p) {
      var y := x.(staticPrio := prio, prio := prio);
      TailAlike(v, p, x, y, v.RoleOf(p), t);
      ReschedAlike(ToTail(v, p, y, v.RoleOf(p)), t);
    }
  }

  lemma PolicyAlike(v: View, hz: Hz, p: Tid, q: Request, slept: nat, t: Tid)
    requires Enabled(v, PolicyStep(p, q, slept)) && t in v.rec && t != p
    ensures RecOk(v.rec[p]) && Alike(v, SetScheduler(v, p, q, hz, slept), t)
  {
    hide View.Inv, ToTail, Repolicy, Check;
    RecAt(v, p);
    if Check(v.rec[p], q).Granted? {
      var policy := Check(v.rec[p], q).policy;
      if v.rec[p].policy.Short? && policy.Short? {
        RenewAlike(v, p, v.rec[p].(requestedTime := q.requestedTime), t);
      } else {
        RepolicyOk(v.rec[p], policy, q, hz);
        var y := Repolicy(v.rec[p], policy, q, hz);
        if v.Queued(p) {
          TailAlike(v, p, y, ActivateRec(y, hz, slept), Home(y), t);
          ReschedAlike(Activate(SetRec(v, p, y), p, hz, slept), t);
        } else {
          ReschedAlike(SetRec(v, p, y), t);
        }
      }
    }
  }

  /** SHORT to SHORT takes p off the queues and leaves the others. */
  lemma RenewAlike(v: View, p: Tid, x: Rec, t: Tid)
    requires v.Inv() && p in v.rec && t in v.rec && t != p
    ensures Alike(v, SetRec(Erase(v, p), p, x), t)
  {
    hide View.Inv, EraseAll, View.Queued, View.In;
    InvShaped(v);
    EraseOthers(v, p, x);
    assert SetRec(Erase(v, p), p, x) == Erase(SetRec(v, p, x), p);
  }

  lemma YieldAlike(v: View, t: Tid)
    requires Enabled(v, YieldStep) && t in v.rec && t != v.curr
    ensures RecOk(v.rec[v.curr]) && Alike(v, YieldPlace(v), t)
  {
    hide View.Inv, Place;
    InvShaped(v);
    RecAt(v, v.curr);
    var p, x, r := v.curr, v.rec[v.curr], v.RoleOf(v.curr);
    var rest := EraseAll(v.q[r], p);
    var j := YieldPrio(rest, x.prio, IsRt(x));
    PlaceAlike(v, p, x.(prio := j), r, YieldIndex(rest[j], IsRt(x)), t);
  }

  /** Every task but the outgoing one is as before; the outgoing one is queued exactly if
      it is still runnable. */
  lemma ScheduleAlike(v: View, signalPending: bool, t: Tid)
    requires v.Inv() && v.CurrQueued() && t in v.rec
    ensures var w := Schedule(v, signalPending);
            && (t != v.curr ==> Alike(v, w, t))
            && w.Shaped() && w.idle == v.idle && t in w.rec
            && w.rec[t].overdue == v.rec[t].overdue && w.rec[t].policy == v.rec[t].policy
            && (t == v.curr && t != v.idle ==> (w.Queued(t) <==> w.rec[t].state.Running?))
  {
    hide View.Inv, Leave, SwitchArrays, Pick, View.Queued;
    InvShaped(v);
    LeaveAlike(v, signalPending, t);
    LeaveKeeps(v, signalPending);
    var u := Leave(v, signalPending);
    InvShaped(u);
    SwitchAlike(u, t);
    PickQueued(u);
    var w := SwitchArrays(u);
    var x := w.rec[v.curr].(needResched := false);
    SwitchedAlike(w, v.curr, x, Pick(w), t);
  }

  lemma SwitchAlike(u: View, t: Tid)
    requires u.Inv() && t in u.rec
    ensures Alike(u, SwitchArrays(u), t) && SwitchArrays(u).rec == u.rec && SwitchArrays(u).curr == u.curr
  {
    hide View.Inv;
    InvShaped(u);
    SwitchKeeps(u);
    var w := SwitchArrays(u);
    assert w != u ==> (w.In(ACTIVE, t) <==> u.In(EXPIRED, t)) && (w.In(EXPIRED, t) <==> u.In(ACTIVE, t));
  }

  lemma SwitchedAlike(w: View, p: Tid, x: Rec, next: Tid, t: Tid)
    requires w.Shaped() && t in w.rec && p in w.rec && next in w.rec
    requires SameBut(x, w.rec[p])
    ensures Alike(w, SetRec(w, p, x).(curr := next), t)
  {
    var y := SetRec(w, p, x).(curr := next);
    assert forall r: Role :: y.In(r, t) == w.In(r, t);
  }

  lemma LeaveAlike(v: View, signalPending: bool, t: Tid)
    requires v.Inv() && v.CurrQueued() && t in v.rec
    ensures var u := Leave(v, signalPending);
            && u.idle == v.idle && u.curr == v.curr && u.rec.Keys == v.rec.Keys
            && (t != v.curr ==> Alike(v, u, t))
            && u.rec[t].overdue == v.rec[t].overdue && u.rec[t].policy == v.rec[t].policy
            && (t == v.curr && t != v.idle ==> (u.Queued(t) <==> u.rec[t].state.Running?))
  {
    var x := v.rec[v.curr];
    if x.state.Interruptible? && signalPending {
    } else if !x.state.Running? {
      assert SetRec(v, v.curr, x) == v;
      EraseOthers(v, v.curr, x);
      EraseInv(v, v.curr, x);
    }
  }

  lemma ForkAlike(v: View, hz: Hz, s: Step, t: Tid)
    requires s.ForkStep? && Enabled(v, s) && t in v.rec && t != v.curr
    ensures Alike(v, Next(v, hz, s), t)
  {
    hide View.Inv, AfterSplit, WakeForked;
    InvShaped(v);
    RecAt(v, v.curr);
    SplitKeeps(v, s.p, hz, s.tickToExpired);
    SplitAlike(v, hz, s, t);
    WakeForkedAlike(AfterSplit(v, s.p, hz, s.tickToExpired), hz, s.p, s.parentSlept, s.childSlept, t);
  }

  lemma WakeForkedAlike(u: View, hz: Hz, p: Tid, parentSlept: nat, childSlept: nat, t: Tid)
    requires u.Inv() && u.CurrQueued() && p in u.rec && p != u.idle && u.curr != u.idle && p != u.curr
    requires t in u.rec && t != p && t != u.curr
    ensures RecOk(u.rec[p]) && RecOk(u.rec[u.curr]) && Alike(u, WakeForked(u, p, hz, parentSlept, childSlept), t)
  {
    hide View.Inv, ToTail, ChildRec, View.RoleOf, View.Queued, ActivateRec;
    InvShaped(u);
    RecAt(u, u.curr);
    RecAt(u, p);
    var x := u.rec[u.curr];
    ActivateAs(u, u.curr, x, hz, parentSlept);
    assert SetRec(u, u.curr, x) == u;
    ActivateRecKeeps(x, hz, parentSlept);
    TailAlike(u, u.curr, x, ActivateRec(x, hz, parentSlept), Home(x), t);
    var w := if u.rec[p].policy.Short? then Activate(u, u.curr, hz, parentSlept) else u;
    var y := ChildRec(w.rec[p], hz);
    ChildRecOk(w.rec[p], hz);
    ActivateRecKeeps(y, hz, childSlept);
    TailAlike(w, p, y, ActivateRec(y, hz, childSlept), Home(y), t);
  }

  lemma ActivateRecKeeps(x: Rec, hz: Hz, slept: nat)
    requires RecOk(x)
    ensures RecOk(ActivateRec(x, hz, slept)) && ActivateRec(x, hz, slept).state == x.state
  {
  }

  lemma ChildRecOk(x: Rec, hz: Hz)
    requires RecOk(x)
    ensures RecOk(ChildRec(x, hz))
  {
  }

  lemma SplitAlike(v: View, hz: Hz, s: Step, t: Tid)
    requires s.ForkStep? && Enabled(v, s) && t in v.rec && t != v.curr
    ensures Alike(v, AfterSplit(v, s.p, hz, s.tickToExpired), t)
  {
    hide Tick;
    var u := SplitView(v, s.p);
    SetRecInv(v, v.curr, u.rec[v.curr]);
    SetRecInv(SetRec(v, v.curr, u.rec[v.curr]), s.p, u.rec[s.p]);
    assert Alike(v, u, t);
    TickAlike(u, hz, s.tickToExpired, t);
  }

  /** The tasks a step acts on by name. */
  function Target(s: Step): Option<Tid> {
    match s
    case WakeStep(p, _) => Some(p)
    case ForkStep(p, _, _, _) => Some(p)
    case NiceStep(p, _) => Some(p)
    case PolicyStep(p, _, _) => Some(p)
    case ReapStep(p) => Some(p)
    case GiveStep(p) => Some(p)
    case TakeStep(p, _) => Some(p)
    case _ => None
  }

  lemma StepAlike(v: View, hz: Hz, s: Step, t: Tid)
    requires Enabled(v, s) && t in v.rec && t != v.curr && Target(s) != Some(t)
    ensures Alike(v, Next(v, hz, s), t)
  {
    hide View.Inv, Tick, Schedule, TryToWakeUp, Fork, SetUserNice, SetScheduler, YieldPlace, View.RoleOf,
         View.Queued, Check;
    InvShaped(v);
    RecAt(v, v.curr);
    match s
    case TickStep(toExpired) => TickAlike(v, hz, toExpired, t);
    case ScheduleStep(signalPending) => ScheduleAlike(v, signalPending, t);
    case WakeStep(p, slept) => WakeAlike(v, hz, p, slept, t);
    case ForkStep(p, toExpired, parentSlept, childSlept) => ForkAlike(v, hz, s, t);
    case NiceStep(p, nice) => NiceAlike(v, p, nice, t);
    case PolicyStep(p, q, slept) => PolicyAlike(v, hz, p, q, slept, t);
    case YieldStep => YieldAlike(v, t);
    case SetStateStep(state) => SetStateAlike(v, state, t);
    case ReapStep(p) => ReapKeeps(v, p, hz); LeaverAlike(v, ReapChild(v, p, hz), t);
    case GiveStep(p) => GiveKeeps(v, p); LeaverAlike(v, Give(v, p), t);
    case TakeStep(p, x) => TakeAlike(v, p, x, t);
  }

  lemma LeaverAlike(v: View, w: View, t: Tid)
    requires v.Shaped() && w.Shaped() && w.idle == v.idle && t in v.rec && t in w.rec && w.rec[t] == v.rec[t]
    requires w.Queued(t) <==> v.Queued(t)
    ensures Alike(v, w, t)
  {
  }

  lemma TakeAlike(v: View, p: Tid, x: Rec, t: Tid)
    requires v.Inv() && v.CurrQueued() && p !in v.rec && RecOk(x) && !x.policy.Short? && t in v.rec
    ensures v.Shaped() && Alike(v, Take(v, p, x), t)
  {
    hide View.Inv, ToTail;
    InvShaped(v);
    PlaceAlike(v, p, x, ACTIVE, |Remove(v.q[ACTIVE][x.prio], p)|, t);
    TailIsPlace(v, p, x);
    ReschedAlike(ToTail(v, p, x, ACTIVE), t);
  }

  lemma TailIsPlace(v: View, p: Tid, x: Rec)
    requires v.Shaped() && 0 <= x.prio < MAX_PRIO
    ensures ToTail(v, p, x, ACTIVE) == Place(v, p, x, ACTIVE, |Remove(v.q[ACTIVE][x.prio], p)|)
  {
  }

  lemma SetStateAlike(v: View, state: State, t: Tid)
    requires v.Shaped() && t in v.rec && t != v.curr
    ensures Alike(v, SetRec(v, v.curr, v.rec[v.curr].(state := state)), t)
  {
  }

  /** A granted request of a SHORT task that keeps it SHORT: the task is off the queues
      afterwards, whatever its state. */
  ghost predicate TakenOff(v: View, s: Step) {
    s.PolicyStep? && s.p in v.rec && v.rec[s.p].policy.Short? && Check(v.rec[s.p], s.request) == Granted(Short)
  }

  /** The tasks that such requests have taken off the queues while runnable, until a
      wake-up finds them or they are reaped. */
  ghost function Lost(v: View, s: Step, lost: set<Tid>): set<Tid>
    requires v.Shaped()
  {
    match s
    case WakeStep(p, _) => lost - {p}
    case ReapStep(p) => lost - {p}
    case PolicyStep(p, _, _) => if TakenOff(v, s) && v.Queued(p) then lost + {p} else lost
    case _ => lost
  }

  /** A task is on the runqueue exactly when it is runnable, the running task always is,
      and the lost tasks are not. */
  ghost predicate Accounted(v: View, lost: set<Tid>) {
    && v.Inv() && v.CurrQueued()
    && (forall t :: t in lost ==> t in v.rec && t != v.idle && !v.Queued(t))
    && forall t :: t in v.rec && t != v.idle && t != v.curr && t !in lost ==> (v.Queued(t) <==> v.rec[t].state.Running?)
  }

  /** The tasks after a step. */
  function KeysAfter(v: View, s: Step): set<Tid> {
    if s.ForkStep? || s.TakeStep? then v.rec.Keys + {s.p}
    else if s.ReapStep? || s.GiveStep? then v.rec.Keys - {s.p}
    else v.rec.Keys
  }

  /** A step that names a task leaves the runqueue with the same idle and running task. */
  lemma TargetTasks(v: View, hz: Hz, s: Step, p: Tid)
    requires Enabled(v, s) && Target(s) == Some(p)
    ensures var w := Next(v, hz, s);
            w.Shaped() && w.idle == v.idle && w.curr == v.curr && w.rec.Keys == KeysAfter(v, s)
  {
    hide View.Inv, ToTail, View.RoleOf, Check, Repolicy, ActivateRec, ChildRec, AfterSplit, SetUserNice, SetScheduler,
         Fork;
    InvShaped(v);
    RecAt(v, v.curr);
    StepKeeps(v, hz, s);
    InvShaped(Next(v, hz, s));
    match s
    case ForkStep(_, _, _, _) => ForkedRec(v, hz, s);
    case NiceStep(_, nice) => NiceTarget(v, p, nice);
    case PolicyStep(_, q, slept) => PolicyTarget(v, hz, p, q, slept);
    case WakeStep(_, _) => RecAt(v, p);
    case GiveStep(_) => MovableFits(v, p);
    case TakeStep(_, x) => TakeKeeps(v, p, x);
    case ReapStep(_) =>
  }

  /** A woken, forked or pulled task is runnable and queued. */
  lemma ArrivalQueued(v: View, hz: Hz, s: Step, p: Tid)
    requires Enabled(v, s) && Target(s) == Some(p) && (s.WakeStep? || s.ForkStep? || s.TakeStep?)
    ensures var w := Next(v, hz, s); w.Shaped() && p in w.rec && w.Queued(p) && w.rec[p].state.Running?
  {
    hide View.Inv, ToTail, TryToWakeUp, Fork, Take;
    InvShaped(v);
    RecAt(v, v.curr);
    TargetTasks(v, hz, s, p);
    match s
    case WakeStep(_, slept) => WakeKeeps(v, p, hz, slept);
    case ForkStep(_, toExpired, parentSlept, childSlept) =>
      ForkKeeps(v, p, hz, toExpired, parentSlept, childSlept);
      ForkedRec(v, hz, s);
    case TakeStep(_, x) => TakeKeeps(v, p, x);
  }

  /** A nice or policy change leaves its task's state, and its place on or off the queues
      unless it takes it off. */
  lemma ChangedQueued(v: View, hz: Hz, s: Step, p: Tid)
    requires Enabled(v, s) && Target(s) == Some(p) && (s.NiceStep? || s.PolicyStep?)
    ensures var w := Next(v, hz, s);
            && w.Shaped() && p in w.rec && w.rec[p].state == v.rec[p].state
            && (w.Queued(p) <==> v.Queued(p) && !TakenOff(v, s))
  {
    hide View.Inv, SetUserNice, SetScheduler, Check, View.Queued;
    InvShaped(v);
    match s
    case NiceStep(_, nice) => NiceTarget(v, p, nice);
    case PolicyStep(_, q, slept) =>
      SetSchedulerKeeps(v, p, q, hz, slept);
      PolicyTarget(v, hz, p, q, slept);
  }

  lemma ForkedRec(v: View, hz: Hz, s: Step)
    requires s.ForkStep? && Enabled(v, s)
    ensures v.Shaped() && RecOk(v.rec[v.curr])
    ensures var w := Fork(v, s.p, hz, s.tickToExpired, s.parentSlept, s.childSlept);
            && w.idle == v.idle && w.curr == v.curr && w.rec.Keys == v.rec.Keys + {s.p} && w.rec[s.p].state.Running?
            && (v.rec[v.curr].overdue ==> w.rec[v.curr].overdue && w.rec[s.p].overdue)
  {
    hide View.Inv, ToTail, View.RoleOf, View.In, EffectivePrio, ShortSlice;
    InvShaped(v);
    RecAt(v, v.curr);
    var u := AfterSplit(v, s.p, hz, s.tickToExpired);
    assert u.rec.Keys == v.rec.Keys + {s.p};
  }

  lemma NiceTarget(v: View, p: Tid, nice: int)
    requires v.Inv() && v.CurrQueued() && p in v.rec && p != v.idle
    ensures RecOk(v.rec[p])
    ensures var w := SetUserNice(v, p, nice);
            && w.Shaped() && w.idle == v.idle && w.curr == v.curr && w.rec.Keys == v.rec.Keys
            && (w.Queued(p) <==> v.Queued(p)) && w.rec[p].state == v.rec[p].state
  {
    hide View.Inv, ToTail;
    RecAt(v, p);
    var x := v.rec[p];
    var prio := MAX_RT_PRIO + nice + 20;
    var y := x.(staticPrio := prio, prio := prio);
    if !(x.staticPrio == prio || nice < -20 || nice > 19 || x.policy.Short? || IsRt(x)) {
      if v.Queued(p) {
        TailKeeps(v, p, y, v.RoleOf(p));
        ReschedKeeps(ToTail(v, p, y, v.RoleOf(p)));
      } else {
        SetRecInv(v, p, y);
      }
    }
  }

  lemma PolicyTarget(v: View, hz: Hz, p: Tid, q: Request, slept: nat)
    requires Enabled(v, PolicyStep(p, q, slept))
    ensures v.Shaped() && RecOk(v.rec[p])
    ensures var w := SetScheduler(v, p, q, hz, slept);
            && w.Shaped() && w.idle == v.idle && w.curr == v.curr && w.rec.Keys == v.rec.Keys
            && w.rec[p].state == v.rec[p].state && (v.rec[p].overdue ==> w == v)
  {
    hide View.Inv, ToTail, View.RoleOf, View.In;
    InvShaped(v);
    RecAt(v, p);
  }

  /** The steps without a named task other than schedule() act on the running task. */
  lemma OwnStep(v: View, hz: Hz, s: Step)
    requires Enabled(v, s) && Target(s).None? && !s.ScheduleStep?
    ensures Next(v, hz, s).curr == v.curr && Next(v, hz, s).idle == v.idle && Next(v, hz, s).rec.Keys == v.rec.Keys
    ensures v.rec[v.curr].overdue ==> Next(v, hz, s).rec[v.curr].overdue
  {
    hide View.Inv, ToTail, Place, View.RoleOf, View.In, EffectivePrio, ShortSlice, TaskSlice;
    InvShaped(v);
    RecAt(v, v.curr);
    if v.curr != v.idle {
      TickRecOk(v.rec[v.curr], hz, v.In(ACTIVE, v.curr), s.TickStep? && s.toExpired);
    }
  }

  /** No step loses a runnable task or leaves a sleeping one behind on the runqueue, but for
      the tasks that TakenOff names. */
  lemma StepAccounts(v: View, hz: Hz, s: Step, lost: set<Tid>)
    requires Accounted(v, lost) && Enabled(v, s)
    ensures v.Shaped() && Accounted(Next(v, hz, s), Lost(v, s, lost))
  {
    hide View.Inv, Next, View.RoleOf, View.In, Enabled, TakenOff;
    InvShaped(v);
    StepKeeps(v, hz, s);
    var w := Next(v, hz, s);
    InvShaped(w);
    StepTasks(v, hz, s);
    forall t | t in w.rec && t != w.idle && t != w.curr && t !in Lost(v, s, lost)
      ensures w.Queued(t) <==> w.rec[t].state.Running?
    {
      if Target(s) == Some(t) {
        NamedAccounted(v, hz, s, lost, t);
      } else if t != v.curr {
        StepAlike(v, hz, s, t);
      } else {
        OutgoingAccounted(v, hz, s);
      }
    }
    forall t | t in Lost(v, s, lost) ensures t in w.rec && t != w.idle && !w.Queued(t) {
      if Target(s) == Some(t) {
        NamedLost(v, hz, s, lost, t);
      } else {
        StepAlike(v, hz, s, t);
      }
    }
  }

  lemma NamedAccounted(v: View, hz: Hz, s: Step, lost: set<Tid>, t: Tid)
    requires Accounted(v, lost) && Enabled(v, s) && Target(s) == Some(t)
    requires t in Next(v, hz, s).rec && t != v.curr && v.Shaped() && t !in Lost(v, s, lost)
    ensures var w := Next(v, hz, s); w.Shaped() && (w.Queued(t) <==> w.rec[t].state.Running?)
  {
    hide View.Inv, Next, View.Queued;
    if s.WakeStep? || s.ForkStep? || s.TakeStep? {
      ArrivalQueued(v, hz, s, t);
    } else if s.NiceStep? || s.PolicyStep? {
      ChangedQueued(v, hz, s, t);
    } else {
      TargetTasks(v, hz, s, t);
    }
  }

  lemma NamedLost(v: View, hz: Hz, s: Step, lost: set<Tid>, t: Tid)
    requires Accounted(v, lost) && Enabled(v, s) && Target(s) == Some(t) && v.Shaped() && t in Lost(v, s, lost)
    ensures var w := Next(v, hz, s); w.Shaped() && t in w.rec && t != v.idle && !w.Queued(t)
  {
    hide View.Inv, Next, TakenOff, View.RoleOf;
    if s.GiveStep? {
      MovableFits(v, t);
    } else {
      assert s.NiceStep? || s.PolicyStep?;
      ChangedQueued(v, hz, s, t);
    }
  }

  lemma StepTasks(v: View, hz: Hz, s: Step)
    requires Enabled(v, s)
    ensures var w := Next(v, hz, s);
            && w.idle == v.idle && w.rec.Keys == KeysAfter(v, s) && (!s.ScheduleStep? ==> w.curr == v.curr)
  {
    hide View.Inv, Tick, Schedule, TryToWakeUp, Fork, SetUserNice, SetScheduler, YieldPlace, View.RoleOf,
         View.Queued, Check;
    InvShaped(v);
    if Target(s).Some? {
      TargetTasks(v, hz, s, Target(s).value);
    } else if s.ScheduleStep? {
      ScheduleKeeps(v, s.signalPending);
      ScheduleAlike(v, s.signalPending, v.idle);
    } else {
      OwnStep(v, hz, s);
    }
  }

  lemma OutgoingAccounted(v: View, hz: Hz, s: Step)
    requires Enabled(v, s) && v.curr != Next(v, hz, s).curr && v.curr != v.idle
    ensures var w := Next(v, hz, s);
            w.Shaped() && v.curr in w.rec && (w.Queued(v.curr) <==> w.rec[v.curr].state.Running?)
  {
    hide View.Inv, Tick, Schedule, TryToWakeUp, Fork, SetUserNice, SetScheduler, YieldPlace, View.RoleOf,
         View.Queued, Check;
    InvShaped(v);
    StepTasks(v, hz, s);
    ScheduleAlike(v, s.signalPending, v.curr);
  }

  /** No step but its reaping ends a task's overdue state. */
  lemma StepKeepsOverdue(v: View, hz: Hz, s: Step, t: Tid)
    requires Enabled(v, s) && t in v.rec && v.rec[t].overdue && s != ReapStep(t) && t != v.idle
    ensures t in Next(v, hz, s).rec && Next(v, hz, s).rec[t].overdue
  {
    hide View.Inv, View.RoleOf, View.In, ToTail, Place, Check, ChildRec, AfterSplit, EffectivePrio;
    InvShaped(v);
    RecAt(v, t);
    if s.ScheduleStep? {
      ScheduleAlike(v, s.signalPending, t);
    } else if t != v.curr && Target(s) != Some(t) {
      StepAlike(v, hz, s, t);
    } else if s.ForkStep? {
      ForkedRec(v, hz, s);
    } else if s.PolicyStep? && s.p == t {
      PolicyTarget(v, hz, t, s.request, s.slept);
    } else if Target(s).None? {
      OwnStep(v, hz, s);
    } else if s.ReapStep? || s.GiveStep? || s.TakeStep? {
      LeaverKeepsOverdue(v, hz, s, t);
    } else {
      NamedKeepsOverdue(v, hz, s, t);
    }
  }

  lemma LeaverKeepsOverdue(v: View, hz: Hz, s: Step, t: Tid)
    requires Enabled(v, s) && t in v.rec && v.rec[t].overdue && (t == v.curr || Target(s) == Some(t)) && t != v.idle
    requires s.ReapStep? || s.GiveStep? || s.TakeStep?
    requires s != ReapStep(t)
    ensures t in Next(v, hz, s).rec && Next(v, hz, s).rec[t].overdue
  {
    hide View.Inv, View.Queued, EraseAll;
    InvShaped(v);
    RecAt(v, t);
    if s.GiveStep? { MovableFits(v, s.p); }
  }

  lemma NamedKeepsOverdue(v: View, hz: Hz, s: Step, t: Tid)
    requires Enabled(v, s) && t in v.rec && v.rec[t].overdue && (t == v.curr || Target(s) == Some(t))
    requires s.WakeStep? || s.NiceStep? || s.PolicyStep?
    ensures t in Next(v, hz, s).rec && Next(v, hz, s).rec[t].overdue
  {
    hide View.Inv, View.RoleOf, View.In, Check, EffectivePrio;
    InvShaped(v);
    RecAt(v, t);
    RecAt(v, s.p);
  }

  /** Runs: sequences of enabled steps. */
  ghost predicate IsRun(v: View, hz: Hz, steps: seq<Step>)
    decreases |steps|
  {
    steps == [] || (Enabled(v, steps[0]) && IsRun(Next(v, hz, steps[0]), hz, steps[1..]))
  }

  ghost function After(v: View, hz: Hz, steps: seq<Step>): View
    requires IsRun(v, hz, steps)
    decreases |steps|
  {
    if steps == [] then v else After(Next(v, hz, steps[0]), hz, steps[1..])
  }

  /** The lost tasks after a run. */
  ghost function LostAfter(v: View, hz: Hz, steps: seq<Step>, lost: set<Tid>): set<Tid>
    requires IsRun(v, hz, steps)
    decreases |steps|
  {
    if steps == [] then lost else LostAfter(Next(v, hz, steps[0]), hz, steps[1..], Lost(v, steps[0], lost))
  }

  /** Runs may start at boot, and with the first task that the boot task has queued. */
  lemma BootAccounts(boot: Tid, i: Rec, p: Tid, x: Rec)
    requires i.prio == MAX_PRIO && i.policy.Other? && i.state.Running?
    requires p != boot && RecOk(x) && !x.policy.Short? && x.state.Running?
    ensures Accounted(Boot(boot, i), {}) && Accounted(ToTail(Boot(boot, i), p, x, ACTIVE), {})
  {
    var v := Boot(boot, i);
    assert forall r, k :: 0 <= r < 4 && 0 <= k < MAX_PRIO ==> v.q[r][k] == [];
    var n := |Remove(v.q[ACTIVE][x.prio], p)|;
    PlaceInv(v, p, x, ACTIVE, n);
    QueuedHome(Place(v, p, x, ACTIVE, n), ACTIVE, x.prio, p);
  }

  /** Over every run: the class invariants hold, the running task is queued, and a task is
      queued exactly when it is runnable, but for the tasks that a request to stay SHORT
      has taken off the queues; those are off. */
  lemma {:induction false} RunAccounts(v: View, hz: Hz, steps: seq<Step>, lost: set<Tid>)
    requires Accounted(v, lost) && IsRun(v, hz, steps)
    ensures Accounted(After(v, hz, steps), LostAfter(v, hz, steps, lost))
    decreases |steps|
  {
    hide Accounted, Enabled, Next, Lost;
    if steps != [] {
      StepAccounts(v, hz, steps[0], lost);
      RunAccounts(Next(v, hz, steps[0]), hz, steps[1..], Lost(v, steps[0], lost));
    }
  }

  lemma IsRunStarts(v: View, hz: Hz, steps: seq<Step>)
    requires IsRun(v, hz, steps) && steps != []
    ensures Enabled(v, steps[0]) && IsRun(Next(v, hz, steps[0]), hz, steps[1..])
    ensures After(v, hz, steps) == After(Next(v, hz, steps[0]), hz, steps[1..])
  {
  }

  /** Over every run an overdue task that is not reaped stays overdue, at priority 0, in the
      overdue array whenever it is queued. */
  lemma {:induction false} OverdueForever(v: View, hz: Hz, steps: seq<Step>, t: Tid)
    requires v.Inv() && IsRun(v, hz, steps) && t in v.rec && v.rec[t].overdue && t != v.idle
    requires forall s :: s in steps ==> s != ReapStep(t)
    ensures var w := After(v, hz, steps);
            && w.Shaped() && t in w.rec && w.rec[t].overdue && w.rec[t].policy.Short? && w.rec[t].prio == 0
            && (w.Queued(t) <==> w.In(OVERDUE_Q, t))
    decreases |steps|
  {
    hide View.Inv, Enabled, Next;
    if steps == [] {
      OverduePlace(v, t);
    } else {
      assert steps[0] in steps && forall s :: s in steps[1..] ==> s in steps;
      IsRunStarts(v, hz, steps);
      StepOverdue(v, hz, steps[0], t);
      OverdueForever(Next(v, hz, steps[0]), hz, steps[1..], t);
    }
  }

  lemma StepOverdue(v: View, hz: Hz, s: Step, t: Tid)
    requires Enabled(v, s) && t in v.rec && v.rec[t].overdue && t != v.idle && s != ReapStep(t)
    ensures var w := Next(v, hz, s); w.Inv() && t in w.rec && w.rec[t].overdue && t != w.idle
  {
    hide View.Inv, Next, View.Queued;
    StepKeeps(v, hz, s);
    StepKeepsOverdue(v, hz, s, t);
    StepTasks(v, hz, s);
  }

  lemma OverduePlace(v: View, t: Tid)
    requires v.Inv() && t in v.rec && v.rec[t].overdue && t != v.idle
    ensures v.Shaped()
    ensures v.rec[t].policy.Short? && v.rec[t].prio == 0 && (v.Queued(t) <==> v.In(OVERDUE_Q, t))
  {
    if v.Queued(t) { QueuedHome(v, v.RoleOf(t), v.rec[t].prio, t); }
  }
}
