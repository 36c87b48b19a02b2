/** What the operations bring about for the task they are called on, in terms of its fields,
    its place, and the order in which tasks run. */
module Effects {
  import opened Lists
  import opened TaskModel
  import opened SchedSpec
  import opened SchedInvariant
  import opened SchedPick
  import opened Interactivity
  import SchedRuns

  /** p is queued in role r, behind all others of its priority there. */
  ghost predicate Behind(w: View, r: Role, p: Tid) {
    && w.Inv() && Last(w, r, p) && w.In(r, p)
    && forall t :: t in w.rec && t != p && w.In(r, t) && w.rec[t].prio == w.rec[p].prio ==>
         w.Queued(t) && w.Queued(p) && Before(w, t, p)
  }

  lemma BehindAll(v: View, p: Tid, x: Rec, r: Role)
    requires v.Inv() && v.CurrQueued() && p != v.idle && RecOk(x) && Fits(r, x)
    ensures Behind(ToTail(v, p, x, r), r, p) && ToTail(v, p, x, r).CurrQueued()
  {
    hide View.Inv, ToTail, Before;
    InvShaped(v);
    TailKeeps(v, p, x, r);
    TailLast(v, p, x, r);
    var w := ToTail(v, p, x, r);
    forall t | t in w.rec && t != p && w.In(r, t) && w.rec[t].prio == w.rec[p].prio
      ensures w.Queued(t) && w.Queued(p) && Before(w, t, p)
    {
      LastBehind(w, r, p, t);
    }
  }

  /** A resched mark changes nothing about the queues. */
  lemma MarkedBehind(w: View, r: Role, p: Tid)
    requires Behind(w, r, p)
    ensures Behind(Resched(w), r, p)
  {
    SetRecInv(w, w.curr, w.rec[w.curr].(needResched := true));
    MarkedLast(w, r, p);
    var u := Resched(w);
    forall t | t in u.rec && t != p && u.In(r, t) && u.rec[t].prio == u.rec[p].prio
      ensures u.Queued(t) && u.Queued(p) && Before(u, t, p)
    {
      LastBehind(u, r, p, t);
    }
  }

  lemma MarkedLast(w: View, r: Role, p: Tid)
    requires Last(w, r, p) && w.In(r, p)
    ensures Last(Resched(w), r, p) && Resched(w).In(r, p)
  {
  }

  lemma BehindIn(w: View, r: Role, p: Tid)
    requires Behind(w, r, p)
    ensures p in w.rec && w.Shaped() && w.In(r, p)
  {
  }

  // ---- set_user_nice -------------------------------------------------------------------------------

  function Nice(x: Rec): int { x.staticPrio - MAX_RT_PRIO - 20 }

  predicate NiceTakes(x: Rec, nice: int) { -20 <= nice <= 19 && !x.policy.Short? && Nice(x) != nice }

  /** A nice level in range is the task's level afterwards, unless it is SHORT. The priority
      follows, except that of a real-time task, and the task goes behind its new equals. A
      call that would not change the level does nothing. */
  lemma NiceSets(v: View, p: Tid, nice: int)
    requires v.Inv() && v.CurrQueued() && p in v.rec && p != v.idle
    ensures RecOk(v.rec[p])
    ensures var w, x := SetUserNice(v, p, nice), v.rec[p];
            && w.Inv() && p in w.rec && v.curr in w.rec && w.curr == v.curr && w.idle == v.idle
            && (!NiceTakes(x, nice) ==> w == v)
            && (NiceTakes(x, nice) ==>
                  && Nice(w.rec[p]) == nice
                  && w.rec[p].prio == (if IsRt(x) then x.prio else w.rec[p].staticPrio)
                  && SchedRuns.SameBut(w.rec[p].(staticPrio := x.staticPrio, prio := x.prio), x)
                  && (v.Queued(p) && !IsRt(x) ==> Behind(w, v.RoleOf(p), p))
                  && (IsRt(x) ==> w.q == v.q))
            && (v.Queued(p) ==> w.In(v.RoleOf(p), p))
            && (w.rec[v.curr].needResched <==>
                  v.rec[v.curr].needResched || (NiceTakes(x, nice) && !IsRt(x) && v.Queued(p) && p == v.curr))
  {
    hide View.Inv, ToTail, Behind, View.RoleOf;
    RecAt(v, p);
    NiceKeeps(v, p, nice);
    var x := v.rec[p];
    if NiceTakes(x, nice) && !IsRt(x) && v.Queued(p) {
      var y := x.(staticPrio := MAX_RT_PRIO + nice + 20, prio := MAX_RT_PRIO + nice + 20);
      BehindAll(v, p, y, v.RoleOf(p));
      MarkedBehind(ToTail(v, p, y, v.RoleOf(p)), v.RoleOf(p), p);
      BehindIn(SetUserNice(v, p, nice), v.RoleOf(p), p);
    }
  }

  /** A resched mark and a change of one task leave the others' places alone. */
  lemma MarkedIn(w: View, r: Role, t: Tid)
    requires w.Shaped() && t in w.rec
    ensures Resched(w).Shaped() && t in Resched(w).rec && (Resched(w).In(r, t) <==> w.In(r, t))
    ensures SchedRuns.SameBut(Resched(w).rec[t], w.rec[t])
  {
  }

  lemma NiceStays(v: View, p: Tid, nice: int, t: Tid)
    requires v.Inv() && v.CurrQueued() && p in v.rec && p != v.idle && t in v.rec && t != p
    ensures RecOk(v.rec[p])
    ensures var w := SetUserNice(v, p, nice);
            && w.Shaped() && t in w.rec && SchedRuns.SameBut(w.rec[t], v.rec[t])
            && forall r: Role :: w.In(r, t) <==> v.In(r, t)
  {
    hide View.Inv, ToTail, View.RoleOf, View.In;
    InvShaped(v);
    RecAt(v, p);
    var x := v.rec[p];
    var y := x.(staticPrio := MAX_RT_PRIO + nice + 20, prio := MAX_RT_PRIO + nice + 20);
    forall r: Role ensures SetUserNice(v, p, nice).In(r, t) <==> v.In(r, t) {
      if NiceTakes(x, nice) && !IsRt(x) && v.Queued(p) {
        TailOthers(v, p, y, v.RoleOf(p), r, t);
        MarkedIn(ToTail(v, p, y, v.RoleOf(p)), r, t);
      } else {
        SetIn(v, p, SetUserNice(v, p, nice).rec[p], r, t);
      }
    }
  }

  lemma SetIn(v: View, p: Tid, y: Rec, r: Role, t: Tid)
    requires v.Shaped() && p in v.rec && t in v.rec && t != p
    ensures SetRec(v, p, y).Shaped() && (SetRec(v, p, y).In(r, t) <==> v.In(r, t))
    ensures SetRec(v, p, v.rec[p]) == v
  {
  }

  /** The priority of an OTHER task after set_user_nice. */
  function PrioAfter(x: Rec, nice: int): int { if Nice(x) == nice then x.prio else MAX_RT_PRIO + nice + 20 }

  /** Two active OTHER tasks that are given different nice levels run in the order of their
      priorities afterwards. That is the order of the levels if both calls change something;
      a call that leaves the level as it is also leaves a dynamic priority as it is, and then
      the order can be the other one. The better level never has the shorter slices. */
  lemma NiceOrder(v: View, a: Tid, b: Tid, x: int, y: int, hz: Hz)
    requires v.Inv() && v.CurrQueued() && a in v.rec && b in v.rec && a != b && -20 <= x < y <= 19
    requires v.rec[a].policy.Other? && v.rec[b].policy.Other? && v.In(ACTIVE, a) && v.In(ACTIVE, b)
    ensures RecOk(v.rec[a]) && SetUserNice(v, a, x).Shaped() && b in SetUserNice(v, a, x).rec
    ensures RecOk(SetUserNice(v, a, x).rec[b])
    ensures var w, m, n := SetUserNice(SetUserNice(v, a, x), b, y), PrioAfter(v.rec[a], x), PrioAfter(v.rec[b], y);
            && w.Inv() && a in w.rec && b in w.rec && w.Queued(a) && w.Queued(b)
            && (m < n ==> Before(w, a, b)) && (n < m ==> Before(w, b, a))
            && (Nice(v.rec[a]) != x && Nice(v.rec[b]) != y ==> Before(w, a, b))
            && TaskSlice(w.rec[a].staticPrio, hz) >= TaskSlice(w.rec[b].staticPrio, hz)
  {
    hide View.Inv, SetUserNice, Behind, TaskSlice, View.In, View.RoleOf;
    InvShaped(v);
    ActiveOnly(v, a);
    ActiveOnly(v, b);
    NiceSets(v, a, x);
    NiceStays(v, a, x, b);
    var u := SetUserNice(v, a, x);
    NiceKeeps(v, a, x);
    RecAt(u, b);
    ActiveOnly(u, b);
    NiceSets(u, b, y);
    NiceStays(u, b, y, a);
    var w := SetUserNice(u, b, y);
    RecAt(w, a);
    RecAt(w, b);
    ActiveOnly(w, a);
    ActiveOnly(w, b);
    if w.rec[a].prio < w.rec[b].prio { ActiveOrder(w, a, b); }
    if w.rec[b].prio < w.rec[a].prio { ActiveOrder(w, b, a); }
    SlicesFall(w.rec[a].staticPrio, w.rec[b].staticPrio, hz);
  }

  /** An active OTHER task is queued nowhere else. */
  lemma ActiveOnly(v: View, p: Tid)
    requires v.Inv() && p in v.rec && v.In(ACTIVE, p)
    ensures v.Queued(p) && v.RoleOf(p) == ACTIVE && !v.In(EXPIRED, p) && p != v.idle && RecOk(v.rec[p])
    ensures !v.rec[p].policy.Short?
  {
    RecAt(v, p);
    if v.In(EXPIRED, p) { OneRole(v, ACTIVE, EXPIRED, p); }
  }

  lemma ActiveOrder(w: View, a: Tid, b: Tid)
    requires w.Inv() && a in w.rec && b in w.rec && w.In(ACTIVE, a) && w.In(ACTIVE, b)
    requires w.rec[a].policy.Other? && w.rec[b].policy.Other? && w.rec[a].prio < w.rec[b].prio
    requires !w.In(EXPIRED, a) && !w.In(EXPIRED, b)
    ensures w.Queued(a) && w.Queued(b) && Before(w, a, b)
  {
    RecAt(w, a);
    RecAt(w, b);
  }

  // ---- sched_setscheduler ------------------------------------------------------------------------------

  predicate IsRealTime(policy: Policy) { policy.Fifo? || policy.RoundRobin? }

  /** Whether the policy argument asks for `policy`; a negative one asks for the present one. */
  predicate AsksFor(x: Rec, q: Request, policy: Policy) {
    if q.policy < 0 then policy == x.policy
    else q.policy == match policy case Other => 0 case Fifo => 1 case RoundRobin => 2 case Short => 4
  }

  /** Who gets a real-time policy, and who gets back to OTHER, whatever the task was: nobody
      without CAP_SYS_NICE the first, and no overdue task either. */
  lemma OtherAdmissions(x: Rec, q: Request, policy: Policy)
    requires RecOk(x)
    ensures IsRealTime(policy) ==>
              (Check(x, q) == Granted(policy) <==>
                 AsksFor(x, q, policy) && 1 <= q.priority <= 99 && q.capNice && !x.overdue)
    ensures policy.Other? ==>
              (Check(x, q) == Granted(policy) <==>
                 AsksFor(x, q, policy) && q.priority == 0 && (q.sameUser || q.capNice) && !x.overdue)
    ensures Check(x, q) == Granted(policy) ==> AsksFor(x, q, policy)
  {
  }

  /** The two refusals: EINVAL exactly for arguments that no task and no caller could pass,
      and EPERM for the others. */
  lemma Refusals(x: Rec, q: Request)
    requires RecOk(x)
    ensures Check(x, q) == Refused(EINVAL) <==>
              || !(exists policy :: AsksFor(x, q, policy))
              || (q.policy == 4 && !(1 <= q.requestedTime <= 5000 && 1 <= q.trials <= 50))
              || exists policy :: AsksFor(x, q, policy)
                   && (if IsRealTime(policy) then !(1 <= q.priority <= 99) else q.priority != 0)
  {
    assert AsksFor(x, q, x.policy) || AsksFor(x, q, Other) || AsksFor(x, q, Fifo) || AsksFor(x, q, RoundRobin)
           || AsksFor(x, q, Short) || q.policy !in {0, 1, 2, 4};
  }

  /** A refused request does nothing. A granted one that does not keep a SHORT task SHORT
      leaves state, nice level and, outside SHORT, the slice alone. A real-time task gets the
      better priority the greater its sched_priority is; any other one falls back on its
      static priority, or on its dynamic one if it is requeued after a sleep. A queued task
      goes behind its new equals. Only an admission to SHORT asks for a reschedule. */
  lemma PolicySets(v: View, p: Tid, q: Request, hz: Hz, slept: nat)
    requires v.Inv() && v.CurrQueued() && p in v.rec && p != v.idle
    requires !(Check(v.rec[p], q) == Granted(Short) && v.rec[p].policy.Short?)
    ensures RecOk(v.rec[p])
    ensures var w, x, verdict := SetScheduler(v, p, q, hz, slept), v.rec[p], Check(v.rec[p], q);
            && w.Inv() && p in w.rec && v.curr in w.rec && (verdict.Refused? ==> w == v)
            && (verdict.Granted? ==>
                  var y := w.rec[p];
                  && y.policy == verdict.policy && y.rtPriority == q.priority
                  && y.state == x.state && Nice(y) == Nice(x) && (!y.policy.Short? ==> y.timeSlice == x.timeSlice)
                  && (IsRealTime(y.policy) ==> y.prio + y.rtPriority == 99)
                  && (y.policy.Short? ==> y.prio == x.staticPrio)
                  && (y.policy.Other? ==>
                        y.prio == if v.Queued(p) && slept > 0 then Clamp(y.staticPrio + 5 - 5 * y.sleepAvg / hz)
                                  else y.staticPrio)
                  && (w.Queued(p) <==> v.Queued(p))
                  && (v.Queued(p) ==> Behind(w, if y.policy.Short? then SHORT_Q else ACTIVE, p))
                  && (w.rec[v.curr].needResched <==> v.rec[v.curr].needResched || y.policy.Short?))
  {
    hide View.Inv, ToTail, Behind, View.RoleOf, Check, View.Queued, EffectivePrio;
    RecAt(v, p);
    SetSchedulerKeeps(v, p, q, hz, slept);
    var x := v.rec[p];
    if Check(x, q).Granted? {
      var policy := Check(x, q).policy;
      var y := Repolicy(x, policy, q, hz);
      RepolicyOk(x, policy, q, hz);
      RepolicyFields(x, policy, q, hz);
      ActivatedFields(y, hz, slept);
      if v.Queued(p) {
        ActivateAs(v, p, y, hz, slept);
        var u := Activate(SetRec(v, p, y), p, hz, slept);
        BehindAll(v, p, ActivateRec(y, hz, slept), Home(y));
        MarkedBehind(u, Home(y), p);
      }
    }
  }

  lemma RepolicyFields(x: Rec, policy: Policy, q: Request, hz: Hz)
    requires RecOk(x) && Check(x, q) == Granted(policy) && !(x.policy.Short? && policy.Short?)
    ensures var y := Repolicy(x, policy, q, hz);
            && RecOk(y) && y.policy == policy && y.rtPriority == q.priority && y.state == x.state && !y.overdue
            && y.staticPrio == x.staticPrio && y.needResched == x.needResched
            && (!policy.Short? ==> y.timeSlice == x.timeSlice)
            && (if IsRealTime(policy) then y.prio + q.priority == 99 && IsRt(y) else y.prio == x.staticPrio && !IsRt(y))
  {
  }

  lemma ActivatedFields(x: Rec, hz: Hz, slept: nat)
    requires RecOk(x) && !x.overdue
    ensures var y := ActivateRec(x, hz, slept);
            && RecOk(y) && Fits(Home(x), y)
            && y.(prio := x.prio, sleepAvg := x.sleepAvg) == x
            && (if IsRt(x) || slept == 0 then y == x
                else y.prio == if x.policy.Short? then x.staticPrio else Clamp(x.staticPrio + 5 - 5 * y.sleepAvg / hz))
  {
    var y := ActivateRec(x, hz, slept);
    if !x.policy.Short? { DynamicPrio(y.(prio := x.prio), hz); }
  }

  // ---- schedule() -----------------------------------------------------------------------------------------

  /** Whether the task that calls schedule() wants to go on: it is runnable, or it would
      sleep interruptibly and a signal is waiting. */
  predicate GoesOn(x: Rec, signalPending: bool) { x.state.Running? || (x.state.Interruptible? && signalPending) }

  /** A task that goes on is runnable and queued after schedule(), and runs on if nobody else
      is queued; any other one is off the queues, in the state it had set. */
  lemma ScheduleLeaves(v: View, signalPending: bool)
    requires v.Inv() && v.CurrQueued() && v.curr != v.idle
    ensures var w, p := Schedule(v, signalPending), v.curr;
            && w.Inv() && p in w.rec
            && w.rec[p] == v.rec[p].(state := w.rec[p].state, needResched := false)
            && (GoesOn(v.rec[p], signalPending) ==>
                  && w.rec[p].state.Running? && w.Queued(p) && w.curr != w.idle
                  && ((forall t :: t in v.rec && t != p ==> !v.Queued(t)) ==> w.curr == p))
            && (!GoesOn(v.rec[p], signalPending) ==> w.rec[p].state == v.rec[p].state && !w.Queued(p))
  {
    hide View.Inv, Pick, SwitchArrays, View.Queued, Erase, Empty;
    InvShaped(v);
    ScheduleKeeps(v, signalPending);
    var w, u := Schedule(v, signalPending), Leave(v, signalPending);
    SchedRuns.ScheduleAlike(v, signalPending, v.curr);
    LeaveKeeps(v, signalPending);
    EraseOwn(v, v.curr);
    SwitchQueued(u, v.curr);
    CurrIs(w);
    if GoesOn(v.rec[v.curr], signalPending) {
      NextQueued(v, signalPending);
      if forall t :: t in v.rec && t != v.curr ==> !v.Queued(t) {
        forall t | t in v.rec && t != v.curr ensures !w.Queued(t) { SchedRuns.ScheduleAlike(v, signalPending, t); }
      }
    }
  }

  lemma CurrIs(w: View)
    requires w.Inv() && w.CurrQueued()
    ensures w.curr in w.rec && (w.curr == w.idle || w.Queued(w.curr))
  {
  }

  lemma NextQueued(v: View, signalPending: bool)
    requires v.Inv() && v.CurrQueued() && v.curr != v.idle && GoesOn(v.rec[v.curr], signalPending)
    ensures Schedule(v, signalPending).curr != v.idle && Schedule(v, signalPending).idle == v.idle
  {
    hide View.Inv, Pick, SwitchArrays, View.In;
    InvShaped(v);
    LeaveKeeps(v, signalPending);
    var u := Leave(v, signalPending);
    QueuedStays(v, v.curr, v.rec[v.curr].(state := Running));
    PickQueued(u);
    NotEmptyFor(u, v.curr);
    SchedRuns.ScheduleAlike(v, signalPending, v.curr);
  }

  lemma QueuedStays(v: View, p: Tid, y: Rec)
    requires v.Shaped() && p in v.rec && y.prio == v.rec[p].prio
    ensures SetRec(v, p, y).Shaped() && (SetRec(v, p, y).Queued(p) <==> v.Queued(p))
  {
    assert forall r: Role :: SetRec(v, p, y).In(r, p) == v.In(r, p);
  }

  lemma NotEmptyFor(u: View, p: Tid)
    requires u.Shaped() && p in u.rec && u.Queued(p)
    ensures !Empty(u)
  {
    assert u.q[u.RoleOf(p)][u.rec[p].prio] != [];
  }

  // ---- sys_sched_yield -----------------------------------------------------------------------------------

  /** Some other task is queued in role r, and all of them at a worse priority than p's. */
  ghost predicate OnlyWorse(v: View, r: Role, p: Tid)
    requires v.Shaped() && p in v.rec
  {
    && (exists t :: t in v.rec && t != p && v.In(r, t))
    && forall t :: t in v.rec && t != p && v.In(r, t) ==> v.rec[t].prio > v.rec[p].prio
  }

  /** Some other task has priority k in role r. */
  ghost predicate Shared(v: View, r: Role, p: Tid, k: int)
    requires v.Shaped()
  {
    exists t :: t in v.rec && t != p && v.In(r, t) && v.rec[t].prio == k
  }

  lemma RestIff(v: View, r: Role, p: Tid, k: nat, t: Tid)
    requires v.Inv() && k < MAX_PRIO
    ensures t in EraseAll(v.q[r], p)[k] <==> t in v.rec && t != p && v.In(r, t) && v.rec[t].prio == k
  {
    assert Cell(v.q[r][k], r, k, v.rec);
    RemoveMembers(v.q[r][k], p);
    if t in v.q[r][k] { QueuedHome(v, r, k, t); }
  }

  lemma RestShared(v: View, r: Role, p: Tid, k: nat)
    requires v.Inv() && k < MAX_PRIO
    ensures EraseAll(v.q[r], p)[k] != [] <==> Shared(v, r, p, k)
  {
    var rest := EraseAll(v.q[r], p)[k];
    if rest != [] { RestIff(v, r, p, k, rest[0]); }
    if t :| t in v.rec && t != p && v.In(r, t) && v.rec[t].prio == k { RestIff(v, r, p, k, t); }
  }

  /** The first occupied list after p has been taken out, in terms of the other tasks. */
  lemma FirstOfRest(v: View, r: Role, p: Tid)
    requires v.Inv() && p in v.rec
    ensures var f := First(EraseAll(v.q[r], p));
            && f <= MAX_PRIO && (f < MAX_PRIO ==> Shared(v, r, p, f))
            && (forall t :: t in v.rec && t != p && v.In(r, t) ==> f <= v.rec[t].prio)
            && (OnlyWorse(v, r, p) <==> v.rec[p].prio < f < MAX_PRIO)
            && forall k :: 0 <= k < f ==> EraseAll(v.q[r], p)[k] == []
  {
    var rest := EraseAll(v.q[r], p);
    var f := First(rest);
    forall t | t in v.rec && t != p && v.In(r, t) ensures f <= v.rec[t].prio < MAX_PRIO {
      RestIff(v, r, p, v.rec[t].prio, t);
    }
    if f < MAX_PRIO { RestShared(v, r, p, f); }
  }

  lemma InsertedIndex(q: seq<Tid>, i: nat, p: Tid)
    requires i <= |q| && i <= 1 && p !in q
    ensures IndexOf(Insert(q, i, p), p) == i
  {
    var s := Insert(q, i, p);
    if i == 1 { assert s[1..][0] == p && s[0] == q[0]; }
  }

  /** A real-time task that yields goes behind its equals. Another task goes behind the first
      of its equals only; if it has none, and all others in its array are at worse
      priorities, it moves to the best of these and goes behind the first task there. */
  lemma YieldPlaces(v: View)
    requires v.Inv() && v.CurrQueued() && v.curr != v.idle
    ensures v.Queued(v.curr) && RecOk(v.rec[v.curr])
    ensures var w, p, x, r := YieldPlace(v), v.curr, v.rec[v.curr], v.RoleOf(v.curr);
            && w.Inv() && w.In(r, p) && w.rec == v.rec[p := x.(prio := w.rec[p].prio)]
            && (IsRt(x) ==> Behind(w, r, p) && w.rec[p] == x)
            && (!IsRt(x) ==>
                  && (if OnlyWorse(v, r, p)
                      then w.rec[p].prio > x.prio && Shared(v, r, p, w.rec[p].prio)
                           && forall t :: t in v.rec && t != p && v.In(r, t) ==> w.rec[p].prio <= v.rec[t].prio
                      else w.rec[p].prio == x.prio)
                  && IndexOf(w.q[r][w.rec[p].prio], p) == if Shared(v, r, p, w.rec[p].prio) then 1 else 0)
  {
    hide View.Inv, Behind, View.RoleOf, EraseAll, Place, First, OnlyWorse, Shared, IndexOf, View.In, Insert, Remove;
    InvShaped(v);
    RecAt(v, v.curr);
    var p, x, r := v.curr, v.rec[v.curr], v.RoleOf(v.curr);
    YieldKeeps(v);
    PrioOf(x);
    ErasedSize(v.q[r], p);
    var rest := EraseAll(v.q[r], p);
    var j := YieldPrio(rest, x.prio, IsRt(x));
    var i := YieldIndex(rest[j], IsRt(x));
    var w := YieldPlace(v);
    YieldedAt(v, p, x.(prio := j), r, i);
    FirstOfRest(v, r, p);
    RestShared(v, r, p, x.prio);
    RestShared(v, r, p, j);
    YieldStays(v);
    if IsRt(x) {
      BehindAll(v, p, x, r);
    } else {
      RestIff(v, r, p, j, p);
      InsertedIndex(rest[j], i, p);
      assert w.q[r][j] == Insert(rest[j], i, p);
    }
  }

  lemma YieldStays(v: View)
    requires v.Inv() && v.CurrQueued() && v.curr != v.idle
    ensures v.Queued(v.curr) && RecOk(v.rec[v.curr]) && Fits(v.RoleOf(v.curr), v.rec[v.curr])
    ensures var w, p, x, r := YieldPlace(v), v.curr, v.rec[v.curr], v.RoleOf(v.curr);
            && w.Shaped() && p in w.rec && w.In(r, p)
            && (IsRt(x) ==> x.prio < MAX_PRIO && w == ToTail(v, p, x, r))
  {
    hide View.Inv, View.RoleOf, EraseAll;
    InvShaped(v);
    RecAt(v, v.curr);
    var p, x, r := v.curr, v.rec[v.curr], v.RoleOf(v.curr);
    PrioOf(x);
    ErasedSize(v.q[r], p);
    var rest := EraseAll(v.q[r], p);
    var j := YieldPrio(rest, x.prio, IsRt(x));
    YieldedAt(v, p, x.(prio := j), r, YieldIndex(rest[j], IsRt(x)));
    assert x.(prio := x.prio) == x;
  }

  // ---- scheduler_tick ------------------------------------------------------------------------------------

  /** Whether a tick is charged to the slice of the running task: not to a FIFO or overdue
      task, and not to one that has expired already. */
  predicate IsCharged(x: Rec, r: Role) { !x.policy.Fifo? && !x.overdue && r != EXPIRED }

  /** Where a task goes when its slice is over. */
  function NextRole(y: Rec, toExpired: bool): Role {
    if y.policy.Short? then (if y.overdue then OVERDUE_Q else SHORT_Q)
    else if y.policy.Other? && toExpired then EXPIRED else ACTIVE
  }

  /** A tick within a slice leaves all queues alone. The tick that ends one asks for a
      reschedule, and the task goes behind its equals: a round-robin task at its priority,
      with a whole slice, and an OTHER task at its dynamic priority. A tick that is not
      charged does no more than ask an expired task to leave. */
  lemma TickTurns(v: View, hz: Hz, toExpired: bool)
    requires v.Inv() && v.CurrQueued() && v.curr != v.idle
    ensures v.Queued(v.curr) && RecOk(v.rec[v.curr])
    ensures var w, p, x, r := Tick(v, hz, toExpired), v.curr, v.rec[v.curr], v.RoleOf(v.curr);
            && w.Inv() && p in w.rec && w.rec == v.rec[p := w.rec[p]] && w.curr == v.curr
            && var y := w.rec[p];
               && y.policy == x.policy && y.state == x.state && Nice(y) == Nice(x)
               && (!IsCharged(x, r) ==> w == if r == EXPIRED then Resched(v) else v)
               && (IsCharged(x, r) && x.timeSlice != 1 ==>
                     && w.q == v.q && y.timeSlice == Dec(x.timeSlice) && y.prio == x.prio
                     && y.needResched == x.needResched)
               && (IsCharged(x, r) && x.timeSlice == 1 ==>
                     && y.needResched && !y.firstTimeSlice && Behind(w, NextRole(y, toExpired), p)
                     && (y.policy.RoundRobin? ==> y.prio == x.prio)
                     && (!y.policy.Short? ==> y.timeSlice == TaskSlice(x.staticPrio, hz))
                     && (y.policy.Other? ==> y.prio == Clamp(x.staticPrio + 5 - 5 * y.sleepAvg / hz)))
  {
    hide View.Inv, ToTail, Behind, View.RoleOf, View.In, TaskSlice, ShortSlice, EffectivePrio;
    InvShaped(v);
    RecAt(v, v.curr);
    var p, x, r := v.curr, v.rec[v.curr], v.RoleOf(v.curr);
    TickKeeps(v, hz, toExpired);
    RoleIs(v, p);
    var out := TickRec(x, hz, v.In(ACTIVE, p), toExpired);
    TickRecOk(x, hz, v.In(ACTIVE, p), toExpired);
    if x.policy.Other? { TickFields(x, hz, toExpired); }
    if out.move.Tail? { BehindAll(v, p, out.rec, out.move.role); }
  }

  lemma RoleIs(v: View, p: Tid)
    requires v.Inv() && p in v.rec && v.Queued(p)
    ensures Fits(v.RoleOf(p), v.rec[p]) && (v.In(ACTIVE, p) <==> v.RoleOf(p) == ACTIVE)
  {
    QueuedHome(v, v.RoleOf(p), v.rec[p].prio, p);
  }

  lemma TickFields(x: Rec, hz: Hz, toExpired: bool)
    requires RecOk(x) && x.policy.Other?
    ensures var y := TickOther(x, hz, toExpired).rec;
            x.timeSlice == 1 ==> y.prio == Clamp(x.staticPrio + 5 - 5 * y.sleepAvg / hz)
  {
    var z := x.(sleepAvg := if x.sleepAvg > 0 then x.sleepAvg - 1 else 0, timeSlice := Dec(x.timeSlice));
    DynamicPrio(z, hz);
  }

  // ---- try_to_wake_up ---------------------------------------------------------------------------------------

  /** A task that was off the queues goes behind its equals, with the credit for its sleep;
      one that was on them just becomes runnable. The running task is asked to leave exactly
      if its number is greater. */
  lemma WokenBehind(v: View, p: Tid, hz: Hz, slept: nat)
    requires v.Inv() && v.CurrQueued() && p in v.rec && p != v.idle
    ensures RecOk(v.rec[p])
    ensures var w, x := TryToWakeUp(v, p, hz, slept), v.rec[p].(state := Running);
            && w.Inv() && p in w.rec && v.curr in w.rec
            && (v.Queued(p) ==> w == SetRec(v, p, x))
            && (!v.Queued(p) ==>
                  && SchedRuns.SameBut(w.rec[p], ActivateRec(x, hz, slept))
                  && Behind(w, Home(x), p)
                  && (v.curr != p ==> (w.rec[v.curr].needResched <==>
                        v.rec[v.curr].needResched || w.rec[p].prio < v.rec[v.curr].prio)))
  {
    hide View.Inv, ToTail, Behind, View.Queued, ActivateRec;
    InvShaped(v);
    RecAt(v, p);
    WakeKeeps(v, p, hz, slept);
    var x := v.rec[p].(state := Running);
    if !v.Queued(p) {
      ActivateAs(v, p, x, hz, slept);
      ActivateFits(x, hz, slept);
      BehindAll(v, p, ActivateRec(x, hz, slept), Home(x));
      MarkedBehind(Activate(SetRec(v, p, x), p, hz, slept), Home(x), p);
    }
  }

  lemma ActivateFits(x: Rec, hz: Hz, slept: nat)
    requires RecOk(x)
    ensures RecOk(ActivateRec(x, hz, slept)) && Fits(Home(x), ActivateRec(x, hz, slept))
  {
  }

  // ---- do_fork -----------------------------------------------------------------------------------------------

  /** The child has its parent's policy, nice level and overdue mark, and a real-time child
      its parent's priority; it goes behind its equals. */
  lemma ForkedChild(v: View, child: Tid, hz: Hz, toExpired: bool, parentSlept: nat, childSlept: nat)
    requires v.Inv() && v.curr != v.idle && v.CurrQueued() && child !in v.rec
    ensures RecOk(v.rec[v.curr])
    ensures var w, x := Fork(v, child, hz, toExpired, parentSlept, childSlept), v.rec[v.curr];
            && w.Inv() && child in w.rec
            && var y := w.rec[child];
               && y.policy == x.policy && Nice(y) == Nice(x) && y.overdue == x.overdue && y.rtPriority == x.rtPriority
               && y.state.Running? && y.firstTimeSlice && y.timeSlice == ForkSplit(x).child.timeSlice
               && (IsRealTime(x.policy) ==> y.prio == x.prio)
               && Behind(w, Home(x), child)
  {
    hide View.Inv, ToTail, Behind, View.RoleOf, View.In, AfterSplit, ForkSplit, EffectivePrio;
    InvShaped(v);
    RecAt(v, v.curr);
    var x := v.rec[v.curr];
    SplitKeeps(v, child, hz, toExpired);
    var u := AfterSplit(v, child, hz, toExpired);
    InvShaped(u);
    RecAt(u, u.curr);
    RecAt(u, child);
    ActivateAs(u, u.curr, u.rec[u.curr], hz, parentSlept);
    assert SetRec(u, u.curr, u.rec[u.curr]) == u;
    var z := u.rec[child];
    SplitFields(x);
    var w := if z.policy.Short? then Activate(u, u.curr, hz, parentSlept) else u;
    assert w.rec[child] == z;
    var y := ChildRec(z, hz);
    ChildFields(z, hz, childSlept);
    ActivateAs(w, child, y, hz, childSlept);
    BehindAll(w, child, ActivateRec(y, hz, childSlept), Home(y));
  }

  lemma SplitFields(x: Rec)
    requires RecOk(x)
    ensures var z := ForkSplit(x).child;
            && RecOk(z) && z.policy == x.policy && z.staticPrio == x.staticPrio && z.overdue == x.overdue
            && z.rtPriority == x.rtPriority && z.prio == x.prio && z.firstTimeSlice
  {
  }

  lemma ChildFields(z: Rec, hz: Hz, slept: nat)
    requires RecOk(z)
    ensures RecOk(ChildRec(z, hz)) && Fits(Home(z), ChildRec(z, hz)) && Home(ChildRec(z, hz)) == Home(z)
    ensures var y := ActivateRec(ChildRec(z, hz), hz, slept);
            && RecOk(y) && Fits(Home(z), y) && y.state.Running?
            && y.(state := z.state, prio := z.prio, sleepAvg := z.sleepAvg) == z
            && (IsRealTime(z.policy) ==> y.prio == z.prio)
  {
  }

  /** A forking task with a single tick left pays with it at once. */
  lemma ForkPays(v: View, child: Tid, hz: Hz, toExpired: bool, parentSlept: nat, childSlept: nat)
    requires v.Inv() && v.curr != v.idle && v.CurrQueued() && child !in v.rec
    requires v.rec[v.curr].timeSlice == 1 && IsCharged(v.rec[v.curr], v.RoleOf(v.curr))
    ensures RecOk(v.rec[v.curr])
    ensures var w := Fork(v, child, hz, toExpired, parentSlept, childSlept);
            v.curr in w.rec && w.rec[v.curr].needResched
  {
    hide View.Inv, ToTail, Behind, View.RoleOf, View.In, Tick, EffectivePrio, ForkSplit;
    InvShaped(v);
    RecAt(v, v.curr);
    var u := SplitView(v, child);
    SplitOne(v, child);
    InvShaped(u);
    TickTurns(u, hz, toExpired);
    SplitKeeps(v, child, hz, toExpired);
    var n := AfterSplit(v, child, hz, toExpired);
    assert n == Tick(u, hz, toExpired);
    InvShaped(n);
    RecAt(n, n.curr);
    RecAt(n, child);
    OnlyCredit(n.rec[n.curr], hz, parentSlept);
    ActivateAs(n, n.curr, n.rec[n.curr], hz, parentSlept);
    assert SetRec(n, n.curr, n.rec[n.curr]) == n;
  }

  lemma SplitOne(v: View, child: Tid)
    requires v.Inv() && v.CurrQueued() && v.curr != v.idle && child !in v.rec && v.rec[v.curr].timeSlice == 1
    ensures var u := SplitView(v, child);
            && u.Inv() && u.CurrQueued() && u.Shaped() && u.curr == v.curr && u.idle == v.idle
            && v.Queued(v.curr) && u.Queued(u.curr) && u.RoleOf(u.curr) == v.RoleOf(v.curr)
            && u.rec[u.curr].timeSlice == 1 && ForkSplit(v.rec[v.curr]).parent.timeSlice == 0
            && u.rec[u.curr].policy == v.rec[v.curr].policy && u.rec[u.curr].overdue == v.rec[v.curr].overdue
  {
    hide View.Inv;
    InvShaped(v);
    RecAt(v, v.curr);
    var u := SplitView(v, child);
    SetRecInv(v, v.curr, u.rec[v.curr]);
    SetRecInv(SetRec(v, v.curr, u.rec[v.curr]), child, u.rec[child]);
    assert forall r: Role :: u.In(r, v.curr) == v.In(r, v.curr);
  }

  lemma NotListed(v: View, p: Tid)
    requires v.Inv() && (p !in v.rec || !v.Queued(p))
    ensures v.Shaped() && forall r: Role, k :: 0 <= k < MAX_PRIO ==> p !in v.q[r][k]
    ensures Erase(v, p) == v
  {
    forall r: Role, k | 0 <= k < MAX_PRIO ensures p !in v.q[r][k] {
      if p in v.q[r][k] { QueuedHome(v, r, k, p); }
    }
    forall r: Role ensures EraseAll(v.q[r], p) == v.q[r] {}
  }

  /** A task that joins the queues at a tail changes nothing else about them. */
  lemma JoinsTail(v: View, p: Tid, x: Rec, r: Role)
    requires v.Inv() && p in v.rec && !v.Queued(p) && RecOk(x)
    ensures 0 <= x.prio < MAX_PRIO
    ensures ToTail(v, p, x, r).q == v.q[r := v.q[r][x.prio := v.q[r][x.prio] + [p]]]
  {
    NotListed(v, p);
    assert Remove(v.q[r][x.prio], p) == v.q[r][x.prio];
    var q := v.q[r][x.prio];
    assert Insert(q, |q|, p) == q + [p];
    assert Erase(SetRec(v, p, x), p).q == v.q;
  }

  /** A fork outside the SHORT policy that leaves the parent ticks adds the child, and
      changes nothing else about the queues. */
  lemma ForkAddsChild(v: View, child: Tid, hz: Hz, toExpired: bool, parentSlept: nat, childSlept: nat)
    requires v.Inv() && v.curr != v.idle && v.CurrQueued() && child !in v.rec
    requires v.rec[v.curr].timeSlice > 1 && !v.rec[v.curr].policy.Short?
    ensures RecOk(v.rec[v.curr])
    ensures var w := Fork(v, child, hz, toExpired, parentSlept, childSlept);
            && child in w.rec && 0 <= w.rec[child].prio < MAX_PRIO
            && var k := w.rec[child].prio; w.q == v.q[ACTIVE := v.q[ACTIVE][k := v.q[ACTIVE][k] + [child]]]
  {
    hide View.Inv, ToTail, View.RoleOf, View.In, EffectivePrio, ChildRec, Tick;
    InvShaped(v);
    RecAt(v, v.curr);
    SplitKeeps(v, child, hz, toExpired);
    var u := AfterSplit(v, child, hz, toExpired);
    assert u == SplitView(v, child);
    InvShaped(u);
    RecAt(u, child);
    ChildFields(u.rec[child], hz, childSlept);
    var y := ActivateRec(ChildRec(u.rec[child], hz), hz, childSlept);
    ActivateAs(u, child, ChildRec(u.rec[child], hz), hz, childSlept);
    JoinsTail(u, child, y, ACTIVE);
  }

  lemma {:induction false} RemoveTail(q: seq<Tid>, p: Tid)
    requires p !in q
    ensures Remove(q + [p], p) == q
  {
    var n := |q|;
    if n > 0 {
      RemoveTail(q[1..], p);
      assert (q + [p])[1..] == q[1..] + [p];
    }
  }

  /** A task that joins at a tail leaves the last of the others last. */
  lemma StaysLast(u: View, p: Tid, r: Role, child: Tid, y: Rec, s: Role)
    requires u.Inv() && Last(u, r, p) && child in u.rec && !u.Queued(child) && RecOk(y) && child != p
    ensures 0 <= y.prio < MAX_PRIO && p in u.rec && 0 <= u.rec[p].prio < MAX_PRIO
    ensures var q := ToTail(u, child, y, s).q[r][u.rec[p].prio];
            var rest := Remove(q, child);
            rest != [] && rest[|rest| - 1] == p && (child in q ==> q[|q| - 1] == child)
  {
    hide View.Queued, ToTail;
    JoinsTail(u, child, y, s);
    NotListed(u, child);
    RemoveTail(u.q[r][u.rec[p].prio], child);
  }

  /** A SHORT task that forks is queued anew: behind its equals, and in front of its child. */
  lemma ShortParent(v: View, child: Tid, hz: Hz, toExpired: bool, parentSlept: nat, childSlept: nat)
    requires v.Inv() && v.curr != v.idle && v.CurrQueued() && child !in v.rec && v.rec[v.curr].policy.Short?
    ensures RecOk(v.rec[v.curr])
    ensures var w, p := Fork(v, child, hz, toExpired, parentSlept, childSlept), v.curr;
            && w.Shaped() && p in w.rec && 0 <= w.rec[p].prio < MAX_PRIO
            && var q := w.q[Home(w.rec[p])][w.rec[p].prio];
               var rest := Remove(q, child);
               rest != [] && rest[|rest| - 1] == p && (child in q ==> q[|q| - 1] == child)
  {
    hide View.Inv, ToTail, View.RoleOf, View.In, ChildRec, AfterSplit, Behind, ActivateRec, Last, View.Queued;
    InvShaped(v);
    RecAt(v, v.curr);
    SplitKeeps(v, child, hz, toExpired);
    var u := AfterSplit(v, child, hz, toExpired);
    InvShaped(u);
    RecAt(u, u.curr);
    RecAt(u, child);
    var x := u.rec[u.curr];
    ActivateAs(u, u.curr, x, hz, parentSlept);
    assert SetRec(u, u.curr, x) == u;
    TailLast(u, u.curr, ActivateRec(x, hz, parentSlept), Home(x));
    SchedRuns.TailAlike(u, u.curr, x, ActivateRec(x, hz, parentSlept), Home(x), child);
    ActivateHome(x, hz, parentSlept);
    var n := Activate(u, u.curr, hz, parentSlept);
    var y := ChildRec(n.rec[child], hz);
    ChildFields(n.rec[child], hz, childSlept);
    ActivateAs(n, child, y, hz, childSlept);
    StaysLast(n, u.curr, Home(x), child, ActivateRec(y, hz, childSlept), Home(y));
  }

  // ---- arrivals and requests to stay SHORT -----------------------------------------------------------

  /** A task that arrives from another processor goes behind its equals in the active array,
      with its fields as they were; the running task is asked to leave if its number is
      greater. */
  lemma TakenBehind(v: View, p: Tid, x: Rec)
    requires v.Inv() && v.CurrQueued() && p !in v.rec && RecOk(x) && !x.policy.Short?
    ensures var w := Take(v, p, x);
            && w.Inv() && p in w.rec && v.curr in w.rec && w.rec[p] == x && Behind(w, ACTIVE, p)
            && (w.rec[v.curr].needResched <==> v.rec[v.curr].needResched || x.prio < v.rec[v.curr].prio)
  {
    hide View.Inv, ToTail, Behind;
    InvShaped(v);
    BehindAll(v, p, x, ACTIVE);
    TakeKeeps(v, p, x);
    MarkedBehind(ToTail(v, p, x, ACTIVE), ACTIVE, p);
  }

  /** A granted request of a SHORT task to stay SHORT gives it the requested time, changes no
      other field, and takes it off the queues. */
  lemma Renewed(v: View, p: Tid, q: Request, hz: Hz, slept: nat)
    requires v.Inv() && v.CurrQueued() && p in v.rec && p != v.idle
    requires Check(v.rec[p], q) == Granted(Short) && v.rec[p].policy.Short?
    ensures RecOk(v.rec[p])
    ensures var w := SetScheduler(v, p, q, hz, slept);
            w.Inv() && w.rec == v.rec[p := v.rec[p].(requestedTime := q.requestedTime)] && !w.Queued(p)
  {
    hide View.Inv, Check, View.Queued, EraseAll;
    InvShaped(v);
    RecAt(v, p);
    SetSchedulerKeeps(v, p, q, hz, slept);
  }
}
