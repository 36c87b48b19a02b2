/** What every run keeps about priorities: the rank of real-time tasks, the cap of the sleep
    average, and, as long as nobody yields, the range of dynamic priorities. */
module Ranks {
  import opened TaskModel
  import opened SchedSpec
  import opened SchedInvariant
  import opened SchedPick
  import opened SchedRuns
  import opened Interactivity
  import opened Effects

  /** The priority of an OTHER task is within five levels of its static one, and that of a
      SHORT task is its static one. */
  predicate Ranged(x: Rec) {
    && (x.policy.Other? ==> Clamp(x.staticPrio - 5) <= x.prio <= Clamp(x.staticPrio + 5))
    && (x.policy.Short? && !x.overdue ==> x.prio == x.staticPrio)
  }

  /** The sleep average is capped, and the priority of a real-time task is the inverse of the
      sched_priority it was given. */
  predicate Ranked(x: Rec, hz: Hz, strict: bool) {
    && Capped(x, hz)
    && (IsRealTime(x.policy) ==> 1 <= x.rtPriority <= 99 && x.prio + x.rtPriority == 99)
    && (strict ==> Ranged(x))
  }

  ghost predicate AllRanked(v: View, hz: Hz, strict: bool) {
    forall t :: t in v.rec && t != v.idle ==> Ranked(v.rec[t], hz, strict)
  }

  // ---- what becomes of one task's fields ---------------------------------------------------------

  lemma SameRanked(x: Rec, y: Rec, hz: Hz, strict: bool)
    requires SameBut(x, y)
    ensures Ranked(x, hz, strict) <==> Ranked(y, hz, strict)
  {
  }

  lemma EffectiveRanged(x: Rec, hz: Hz)
    requires RecOk(x) && Capped(x, hz) && !x.overdue
    ensures Ranged(x.(prio := EffectivePrio(x, hz)))
  {
    if x.policy.Short? { EffectivePrioOfShort(x, hz); } else { PriorityRange(x, hz); }
  }

  lemma TickRanked(x: Rec, hz: Hz, inActive: bool, toExpired: bool, strict: bool)
    requires RecOk(x) && Ranked(x, hz, strict)
    ensures Ranked(TickRec(x, hz, inActive, toExpired).rec, hz, strict)
  {
    hide EffectivePrio, TaskSlice, ShortSlice;
    if x.policy.Other? {
      var y := x.(sleepAvg := if x.sleepAvg > 0 then x.sleepAvg - 1 else 0, timeSlice := Dec(x.timeSlice));
      EffectiveRanged(y, hz);
    }
  }

  lemma ActivateRanked(x: Rec, hz: Hz, slept: nat, strict: bool)
    requires RecOk(x) && Ranked(x, hz, strict)
    ensures Ranked(ActivateRec(x, hz, slept), hz, strict)
  {
    hide EffectivePrio;
    if !IsRt(x) {
      EffectiveRanged(x.(sleepAvg := if x.sleepAvg + slept > 2 * hz then 2 * hz else x.sleepAvg + slept), hz);
    }
  }

  lemma SplitRanked(x: Rec, hz: Hz, strict: bool)
    requires RecOk(x) && Ranked(x, hz, strict)
    ensures Ranked(KeepTick(ForkSplit(x).parent), hz, strict) && Ranked(ForkSplit(x).child, hz, strict)
  {
  }

  lemma ChildRanked(x: Rec, hz: Hz, strict: bool)
    requires RecOk(x) && Ranked(x, hz, strict)
    ensures Ranked(ChildRec(x, hz), hz, strict)
  {
    hide EffectivePrio;
    if !IsRt(x) { EffectiveRanged(x.(state := Running, sleepAvg := x.sleepAvg * 95 / 100), hz); }
  }

  lemma RepolicyRanked(x: Rec, policy: Policy, q: Request, hz: Hz, strict: bool)
    requires RecOk(x) && Ranked(x, hz, strict) && Check(x, q) == Granted(policy)
    requires !(x.policy.Short? && policy.Short?)
    ensures Ranked(Repolicy(x, policy, q, hz), hz, strict)
  {
    OtherAdmissions(x, q, policy);
    RepolicyFields(x, policy, q, hz);
  }

  lemma ReapRanked(x: Rec, y: Rec, hz: Hz, strict: bool)
    requires Ranked(x, hz, strict) && Ranked(y, hz, strict)
    ensures Ranked(Reap(x, y, hz), hz, strict)
  {
  }

  lemma StateRanked(x: Rec, state: State, hz: Hz, strict: bool)
    requires Ranked(x, hz, strict)
    ensures Ranked(x.(state := state), hz, strict)
  {
  }

  lemma NiceRanked(x: Rec, nice: int, hz: Hz, strict: bool)
    requires RecOk(x) && Ranked(x, hz, strict) && -20 <= nice <= 19 && !x.policy.Short?
    ensures var prio := MAX_RT_PRIO + nice + 20;
            && Ranked(if IsRt(x) then x.(staticPrio := prio) else x.(staticPrio := prio, prio := prio), hz, strict)
  {
  }

  lemma MarkRanked(w: View, hz: Hz, strict: bool)
    requires w.Shaped() && AllRanked(w, hz, strict)
    ensures AllRanked(Resched(w), hz, strict)
  {
    SameRanked(w.rec[w.curr], w.rec[w.curr].(needResched := true), hz, strict);
  }

  // ---- one step ------------------------------------------------------------------------------------

  lemma WakeRanked(v: View, hz: Hz, p: Tid, slept: nat, strict: bool)
    requires v.Inv() && AllRanked(v, hz, strict) && p in v.rec && p != v.idle
    ensures RecOk(v.rec[p]) && AllRanked(TryToWakeUp(v, p, hz, slept), hz, strict)
  {
    hide View.Inv, ToTail, Ranked, View.Queued, ActivateRec;
    RecAt(v, p);
    var x := v.rec[p].(state := Running);
    StateRanked(v.rec[p], Running, hz, strict);
    ActivateRanked(x, hz, slept, strict);
    MarkRanked(Activate(SetRec(v, p, x), p, hz, slept), hz, strict);
  }

  lemma NiceStepRanked(v: View, hz: Hz, p: Tid, nice: int, strict: bool)
    requires v.Inv() && AllRanked(v, hz, strict) && p in v.rec && p != v.idle
    ensures RecOk(v.rec[p]) && AllRanked(SetUserNice(v, p, nice), hz, strict)
  {
    hide View.Inv, ToTail, Ranked, View.Queued, View.RoleOf;
    RecAt(v, p);
    var x := v.rec[p];
    if NiceTakes(x, nice) {
      NiceRanked(x, nice, hz, strict);
      var y := x.(staticPrio := MAX_RT_PRIO + nice + 20, prio := MAX_RT_PRIO + nice + 20);
      if !IsRt(x) && v.Queued(p) { MarkRanked(ToTail(v, p, y, v.RoleOf(p)), hz, strict); }
    }
  }

  lemma PolicyStepRanked(v: View, hz: Hz, p: Tid, q: Request, slept: nat, strict: bool)
    requires v.Inv() && AllRanked(v, hz, strict) && p in v.rec && p != v.idle
    ensures RecOk(v.rec[p]) && AllRanked(SetScheduler(v, p, q, hz, slept), hz, strict)
  {
    hide View.Inv, ToTail, View.Queued, ActivateRec, Repolicy, Check, Erase;
    RecAt(v, p);
    var x := v.rec[p];
    if Check(x, q).Granted? && !(x.policy.Short? && Check(x, q).policy.Short?) {
      var y := Repolicy(x, Check(x, q).policy, q, hz);
      RepolicyOk(x, Check(x, q).policy, q, hz);
      RepolicyRanked(x, Check(x, q).policy, q, hz, strict);
      ActivateRanked(y, hz, slept, strict);
      MarkRanked(if v.Queued(p) then Activate(SetRec(v, p, y), p, hz, slept) else SetRec(v, p, y), hz, strict);
    } else {
      EraseOwn(v, p);
    }
  }

  lemma TickStepRanked(v: View, hz: Hz, toExpired: bool, strict: bool)
    requires v.Inv() && v.CurrQueued() && AllRanked(v, hz, strict)
    ensures v.curr in v.rec && (v.curr != v.idle ==> RecOk(v.rec[v.curr]))
    ensures AllRanked(Tick(v, hz, toExpired), hz, strict)
  {
    hide View.Inv, ToTail, Ranked, TickRec;
    InvShaped(v);
    RecAt(v, v.curr);
    if v.curr != v.idle {
      TickRecOk(v.rec[v.curr], hz, v.In(ACTIVE, v.curr), toExpired);
      TickRanked(v.rec[v.curr], hz, v.In(ACTIVE, v.curr), toExpired, strict);
    }
  }

  lemma SplitInv(v: View, child: Tid)
    requires v.Inv() && v.CurrQueued() && v.curr != v.idle && child !in v.rec
    ensures SplitView(v, child).Inv() && SplitView(v, child).CurrQueued()
  {
    hide View.Inv;
    InvShaped(v);
    RecAt(v, v.curr);
    var u := SplitView(v, child);
    SetRecInv(v, v.curr, u.rec[v.curr]);
    SetRecInv(SetRec(v, v.curr, u.rec[v.curr]), child, u.rec[child]);
  }

  lemma ForkStepRanked(v: View, hz: Hz, s: Step, strict: bool)
    requires s.ForkStep? && Enabled(v, s) && AllRanked(v, hz, strict)
    ensures AllRanked(Next(v, hz, s), hz, strict)
  {
    hide View.Inv, ToTail, Ranked, ForkSplit, KeepTick, ActivateRec, ChildRec, Tick, View.RoleOf, View.In;
    InvShaped(v);
    RecAt(v, v.curr);
    var x, child := v.rec[v.curr], s.p;
    var n := SplitView(v, child);
    SplitRanked(x, hz, strict);
    SplitInv(v, child);
    TickStepRanked(n, hz, s.tickToExpired, strict);
    SplitKeeps(v, child, hz, s.tickToExpired);
    var u := AfterSplit(v, child, hz, s.tickToExpired);
    WakeForkedRanked(u, hz, child, s.parentSlept, s.childSlept, strict);
  }

  lemma WakeForkedRanked(u: View, hz: Hz, child: Tid, parentSlept: nat, childSlept: nat, strict: bool)
    requires u.Inv() && u.CurrQueued() && AllRanked(u, hz, strict) && child in u.rec && child != u.idle
    requires u.curr != u.idle && child != u.curr
    ensures u.curr in u.rec && RecOk(u.rec[child]) && RecOk(u.rec[u.curr])
    ensures AllRanked(WakeForked(u, child, hz, parentSlept, childSlept), hz, strict)
  {
    hide View.Inv, ToTail, Ranked, ActivateRec, ChildRec, View.RoleOf, View.In;
    InvShaped(u);
    RecAt(u, u.curr);
    RecAt(u, child);
    ActivateRanked(u.rec[u.curr], hz, parentSlept, strict);
    ChildRanked(u.rec[child], hz, strict);
    ChildRecOk(u.rec[child], hz);
    ActivateRanked(ChildRec(u.rec[child], hz), hz, childSlept, strict);
  }

  lemma ScheduleStepRanked(v: View, hz: Hz, signalPending: bool, strict: bool)
    requires v.Inv() && v.CurrQueued() && AllRanked(v, hz, strict)
    ensures v.Shaped() && AllRanked(Schedule(v, signalPending), hz, strict)
  {
    hide View.Inv, Schedule, Ranked, View.Queued;
    InvShaped(v);
    ScheduleKeeps(v, signalPending);
    var w := Schedule(v, signalPending);
    forall t | t in w.rec && t != w.idle ensures Ranked(w.rec[t], hz, strict) {
      ScheduleAlike(v, signalPending, t);
      if t == v.curr {
        ScheduleLeaves(v, signalPending);
        StateRanked(v.rec[t], w.rec[t].state, hz, strict);
        SameRanked(v.rec[t].(state := w.rec[t].state), w.rec[t], hz, strict);
      } else {
        SameRanked(v.rec[t], w.rec[t], hz, strict);
      }
    }
  }

  lemma YieldStepRanked(v: View, hz: Hz)
    requires v.Inv() && v.CurrQueued() && v.curr != v.idle && AllRanked(v, hz, false)
    ensures v.Queued(v.curr) && RecOk(v.rec[v.curr]) && AllRanked(YieldPlace(v), hz, false)
  {
    hide View.Inv, YieldPlace, View.RoleOf, View.In, Behind;
    InvShaped(v);
    RecAt(v, v.curr);
    YieldPlaces(v);
    YieldTasks(v);
  }

  lemma YieldTasks(v: View)
    requires v.Inv() && v.CurrQueued() && v.curr != v.idle
    ensures v.Queued(v.curr) && RecOk(v.rec[v.curr]) && YieldPlace(v).idle == v.idle
  {
    hide View.Inv, Place;
    InvShaped(v);
    RecAt(v, v.curr);
  }

  /** A task that arrives from another processor is ranked there. */
  predicate Arrives(s: Step, hz: Hz, strict: bool) { s.TakeStep? ==> Ranked(s.rec, hz, strict) }

  lemma StepRanked(v: View, hz: Hz, s: Step, strict: bool)
    requires Enabled(v, s) && AllRanked(v, hz, strict) && Arrives(s, hz, strict) && (strict ==> !s.YieldStep?)
    ensures AllRanked(Next(v, hz, s), hz, strict)
  {
    hide View.Inv, Tick, Schedule, TryToWakeUp, Fork, SetUserNice, SetScheduler, YieldPlace, Ranked, View.Queued, Check,
         Reap, ToTail, Erase;
    InvShaped(v);
    RecAt(v, v.curr);
    match s
    case TickStep(toExpired) => TickStepRanked(v, hz, toExpired, strict);
    case ScheduleStep(signalPending) => ScheduleStepRanked(v, hz, signalPending, strict);
    case WakeStep(p, slept) => WakeRanked(v, hz, p, slept, strict);
    case ForkStep(_, _, _, _) => ForkStepRanked(v, hz, s, strict);
    case NiceStep(p, nice) => NiceStepRanked(v, hz, p, nice, strict);
    case PolicyStep(p, q, slept) => PolicyStepRanked(v, hz, p, q, slept, strict);
    case YieldStep => YieldStepRanked(v, hz);
    case SetStateStep(state) => StateRanked(v.rec[v.curr], state, hz, strict);
    case ReapStep(p) => ReapRanked(v.rec[v.curr], v.rec[p], hz, strict);
    case GiveStep(p) =>
    case TakeStep(p, x) => MarkRanked(ToTail(v, p, x, ACTIVE), hz, strict);
  }

  // ---- runs ----------------------------------------------------------------------------------------

  /** Over every run the sleep averages stay capped and every real-time task keeps the priority
      that its sched_priority stands for. Over runs without a yield, OTHER tasks also stay
      within five levels of their static priority and SHORT tasks at it. */
  lemma {:induction false} RunRanked(v: View, hz: Hz, steps: seq<Step>, strict: bool)
    requires IsRun(v, hz, steps) && AllRanked(v, hz, strict)
    requires forall s :: s in steps ==> Arrives(s, hz, strict) && (strict ==> !s.YieldStep?)
    ensures AllRanked(After(v, hz, steps), hz, strict)
    decreases |steps|
  {
    hide AllRanked, Enabled, Next, Arrives;
    if steps != [] {
      IsRunStarts(v, hz, steps);
      assert steps[0] in steps && forall s :: s in steps[1..] ==> s in steps;
      StepRanked(v, hz, steps[0], strict);
      RunRanked(Next(v, hz, steps[0]), hz, steps[1..], strict);
    }
  }

  /** In every state that a run reaches, queued real-time tasks run in the order of their
      sched_priority, and before all others. */
  lemma RealTimeOrder(v: View, hz: Hz, p: Tid, t: Tid)
    requires v.Inv() && AllRanked(v, hz, false) && p in v.rec && t in v.rec && p != t
    requires v.Queued(p) && v.Queued(t) && IsRealTime(v.rec[p].policy)
    requires IsRealTime(v.rec[t].policy) ==> v.rec[p].rtPriority > v.rec[t].rtPriority
    ensures Before(v, p, t)
  {
    hide View.Inv, View.RoleOf, View.In;
    RecAt(v, p);
    RecAt(v, t);
    ClassRole(v, p);
    ClassRole(v, t);
  }

  /** Two real-time requests that are granted one after the other, on two queued tasks, rank
      them by their priorities. */
  lemma TwoRequests(v: View, hz: Hz, p: Tid, q: Request, pSlept: nat, t: Tid, r: Request, tSlept: nat)
    requires v.Inv() && v.CurrQueued() && AllRanked(v, hz, false) && p in v.rec && t in v.rec && p != t
    requires p != v.idle && t != v.idle && v.Queued(p) && v.Queued(t) && q.priority > r.priority
    requires Check(v.rec[p], q).Granted? && IsRealTime(Check(v.rec[p], q).policy)
    requires Check(v.rec[t], r).Granted? && IsRealTime(Check(v.rec[t], r).policy)
    ensures RecOk(v.rec[p]) && var u := SetScheduler(v, p, q, hz, pSlept);
            && u.Shaped() && t in u.rec && RecOk(u.rec[t])
            && var w := SetScheduler(u, t, r, hz, tSlept);
               w.Inv() && p in w.rec && t in w.rec && w.Queued(p) && w.Queued(t) && Before(w, p, t)
  {
    hide View.Inv, SetScheduler, Check, Behind, Before, View.Queued;
    InvShaped(v);
    PolicySets(v, p, q, hz, pSlept);
    PolicyStepRanked(v, hz, p, q, pSlept, false);
    var s := PolicyStep(p, q, pSlept);
    PolicyAlike(v, hz, p, q, pSlept, t);
    SetSchedulerKeeps(v, p, q, hz, pSlept);
    var u := SetScheduler(v, p, q, hz, pSlept);
    InvShaped(u);
    RecAt(u, t);
    SameCheck(v.rec[t], u.rec[t], r);
    PolicySets(u, t, r, hz, tSlept);
    PolicyStepRanked(u, hz, t, r, tSlept, false);
    PolicyAlike(u, hz, t, r, tSlept, p);
    var w := SetScheduler(u, t, r, hz, tSlept);
    RealTimeOrder(w, hz, p, t);
  }

  lemma SameCheck(x: Rec, y: Rec, q: Request)
    requires SameBut(x, y)
    ensures Check(x, q) == Check(y, q)
  {
  }
}
