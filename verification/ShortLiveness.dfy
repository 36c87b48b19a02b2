/** A system left to itself: no real-time task, no fork, wake-up, block, yield or policy
    change. SHORT tasks run first, in turn, until their budgets are spent. */
module ShortLiveness {
  import opened Lists
  import opened TaskModel
  import opened SchedSpec
  import opened SchedInvariant
  import opened SchedPick
  import opened ShortBudget

  /** One timer tick and, if the tick asked for it, the schedule() that follows. */
  function Round(v: View, hz: Hz): View
    requires v.Shaped() && (v.curr != v.idle ==> RecOk(v.rec[v.curr]))
  {
    var u := Tick(v, hz, false);
    if u.rec[u.curr].needResched then Schedule(u, false) else u
  }

  /** Every queued task is runnable and none is real-time; every SHORT task is queued; and
      if there is one, the head of the first SHORT list is running. */
  ghost predicate Quiet(v: View) {
    && v.Inv() && v.CurrQueued()
    && (forall t :: t in v.rec && v.Queued(t) ==> v.rec[t].state.Running? && Class(v.rec[t]) != 0)
    && (forall t :: t in v.rec && IsShort(v.rec[t]) ==> v.In(SHORT_Q, t))
    && (!Vacant(v.q[SHORT_Q]) ==> v.curr == Head(v.q[SHORT_Q]))
  }

  /** The running SHORT task of a quiet state. */
  lemma Runner(v: View)
    requires Quiet(v) && !Vacant(v.q[SHORT_Q])
    ensures var p := v.curr;
            && p in v.rec && v.In(SHORT_Q, p) && v.Queued(p) && p != v.idle && RecOk(v.rec[p])
            && IsShort(v.rec[p]) && v.rec[p].state.Running? && v.rec[p].prio == First(v.q[SHORT_Q])
  {
    HeadQueued(v, SHORT_Q);
    QueuedHome(v, SHORT_Q, First(v.q[SHORT_Q]), v.curr);
  }

  /** The tick of a SHORT task. */
  lemma ShortTick(v: View, hz: Hz)
    requires Quiet(v) && !Vacant(v.q[SHORT_Q])
    ensures v.Shaped() && v.curr in v.rec && RecOk(v.rec[v.curr])
    ensures var out := TickShort(v.rec[v.curr], hz);
            && RecOk(out.rec)
            && Tick(v, hz, false) == (if out.move.Stay? then SetRec(v, v.curr, out.rec)
                                      else ToTail(v, v.curr, out.rec, out.move.role))
            && Tick(v, hz, false).Inv() && Tick(v, hz, false).CurrQueued()
            && (out.move.Tail? ==> out.rec.needResched && Fits(out.move.role, out.rec)
                                   && out.move.role == (if out.rec.overdue then OVERDUE_Q else SHORT_Q))
  {
    Runner(v);
    TickKeeps(v, hz, false);
    TickRecOk(v.rec[v.curr], hz, v.In(ACTIVE, v.curr), false);
  }

  lemma Untouched(v: View, hz: Hz, t: Tid)
    requires Quiet(v) && !Vacant(v.q[SHORT_Q]) && t in v.rec && t != v.curr
    ensures v.Shaped() && v.curr in v.rec && RecOk(v.rec[v.curr])
    ensures var u := Tick(v, hz, false);
            && u.Shaped() && t in u.rec && u.rec[t] == v.rec[t] && forall r: Role :: u.In(r, t) <==> v.In(r, t)
  {
    ShortTick(v, hz);
    var out := TickShort(v.rec[v.curr], hz);
    if out.move.Tail? {
      forall r: Role {
        PlaceOthers(v, v.curr, out.rec, out.move.role, |Remove(v.q[out.move.role][out.rec.prio], v.curr)|, r, t);
      }
    }
  }

  /** After the tick the state is quiet but for the choice of the running task. */
  ghost predicate Halted(u: View) {
    && u.Inv() && u.CurrQueued() && u.curr != u.idle
    && (forall t :: t in u.rec && u.Queued(t) ==> u.rec[t].state.Running? && Class(u.rec[t]) != 0)
    && (forall t :: t in u.rec && IsShort(u.rec[t]) ==> u.In(SHORT_Q, t))
  }

  lemma TickHalts(v: View, hz: Hz)
    requires Quiet(v) && !Vacant(v.q[SHORT_Q])
    ensures v.Shaped() && v.curr in v.rec && RecOk(v.rec[v.curr])
    ensures var u := Tick(v, hz, false);
            && Halted(u) && u.curr == v.curr && u.idle == v.idle
            && u.rec == v.rec[v.curr := TickShort(v.rec[v.curr], hz).rec]
  {
    Runner(v);
    ShortTick(v, hz);
    var u, out := Tick(v, hz, false), TickShort(v.rec[v.curr], hz);
    if out.move.Tail? {
      PlaceInv(v, v.curr, out.rec, out.move.role, |Remove(v.q[out.move.role][out.rec.prio], v.curr)|);
    }
    forall t | t in u.rec && u.Queued(t) ensures u.rec[t].state.Running? && Class(u.rec[t]) != 0 {
      if t != v.curr { Untouched(v, hz, t); }
    }
    forall t | t in u.rec && IsShort(u.rec[t]) ensures u.In(SHORT_Q, t) {
      if t != v.curr { Untouched(v, hz, t); }
    }
  }

  /** schedule() in a halted state: the next task is the head of the first SHORT list if
      there is one, and otherwise an OTHER task if one is queued. */
  lemma HaltedSchedule(u: View)
    requires Halted(u)
    ensures var w := Schedule(u, false);
            && Quiet(w) && w.idle == u.idle && w.rec == u.rec[u.curr := u.rec[u.curr].(needResched := false)]
            && w.q[SHORT_Q] == u.q[SHORT_Q]
            && w.curr in w.rec
            && (Vacant(w.q[SHORT_Q]) ==>
                  forall t :: t in w.rec && w.rec[t].policy.Other? && w.Queued(t) ==>
                    w.curr != w.idle && w.rec[w.curr].policy.Other?)
  {
    hide View.Inv, Pick, Empty, SwitchArrays, View.Queued, View.In, Class, Vacant, Head;
    InvShaped(u);
    ScheduleKeeps(u, false);
    var w := Schedule(u, false);
    var s := SwitchArrays(u);
    SwitchSame(u);
    assert Leave(u, false) == u;
    HaltedPick(u);
    var x := s.rec[u.curr].(needResched := false);
    forall t | t in w.rec ensures (w.Queued(t) <==> u.Queued(t)) && (w.In(SHORT_Q, t) <==> u.In(SHORT_Q, t)) {
      SwitchQueued(u, t);
      ClearedIn(s, u.curr, x, Pick(s), t);
    }
    SameClass(s.rec[u.curr], x);
  }

  lemma SameClass(x: Rec, y: Rec)
    requires SamePlace(x, y)
    ensures Class(x) == Class(y)
  {
  }

  lemma ClearedIn(s: View, p: Tid, x: Rec, next: Tid, t: Tid)
    requires s.Shaped() && p in s.rec && next in s.rec && SamePlace(x, s.rec[p]) && t in s.rec
    ensures var w := SetRec(s, p, x).(curr := next);
            w.Shaped() && (w.Queued(t) <==> s.Queued(t)) && (w.In(SHORT_Q, t) <==> s.In(SHORT_Q, t))
  {
    var w := SetRec(s, p, x).(curr := next);
    assert forall r: Role :: w.In(r, t) <==> s.In(r, t);
  }

  lemma SwitchSame(u: View)
    requires u.Inv() && u.CurrQueued() && u.curr != u.idle
    ensures var s := SwitchArrays(u);
            && s.Shaped() && s.rec == u.rec && s.curr == u.curr && s.idle == u.idle
            && s.q[SHORT_Q] == u.q[SHORT_Q] && u.rec[u.curr].prio < MAX_PRIO && u.Queued(u.curr)
  {
    SwitchKeeps(u);
  }

  lemma NotEmpty(u: View)
    requires u.Inv() && u.CurrQueued() && u.curr != u.idle
    ensures !Empty(u)
  {
    var r, k := u.RoleOf(u.curr), u.rec[u.curr].prio;
    assert u.q[r][k] != [];
  }

  lemma HaltedPick(u: View)
    requires Halted(u)
    ensures var p := Pick(SwitchArrays(u));
            && p in u.rec && u.Queued(p) && p != u.idle
            && (!Vacant(u.q[SHORT_Q]) ==> p == Head(u.q[SHORT_Q]))
            && (Vacant(u.q[SHORT_Q]) ==>
                  forall t :: t in u.rec && u.rec[t].policy.Other? && u.Queued(t) ==> u.rec[p].policy.Other?)
  {
    NotEmpty(u);
    PickFrom(u);
    PickIsLeast(u);
    var p := Pick(SwitchArrays(u));
    RecAt(u, p);
    if First(u.q[ACTIVE]) < MAX_RT_PRIO { HeadClass(u, ACTIVE); }
    if Vacant(u.q[SHORT_Q]) {
      forall t | t in u.rec && u.rec[t].policy.Other? && u.Queued(t) ensures u.rec[p].policy.Other? {
        ClassRole(u, p);
        ClassRole(u, t);
        assert t != p ==> Before(u, p, t);
      }
    }
  }

  lemma RoundKeeps(v: View, hz: Hz)
    requires v.Inv() && v.CurrQueued()
    ensures v.curr in v.rec && (v.curr != v.idle ==> RecOk(v.rec[v.curr]))
    ensures Round(v, hz).Inv() && Round(v, hz).CurrQueued()
  {
    hide View.Inv, Schedule, Tick;
    InvShaped(v);
    RecAt(v, v.curr);
    TickKeeps(v, hz, false);
    InvShaped(Tick(v, hz, false));
    ScheduleKeeps(Tick(v, hz, false), false);
  }

  ghost function Rounds(v: View, hz: Hz, n: nat): View
    requires v.Inv() && v.CurrQueued()
    decreases n
  {
    if n == 0 then v
    else
      RoundKeeps(v, hz);
      Rounds(Round(v, hz), hz, n - 1)
  }

  /** The fields after a round, up to the resched flag. */
  ghost predicate TickedTo(x: Rec, y: Rec, hz: Hz) {
    y.(needResched := false) == TickShort(x, hz).rec.(needResched := false)
  }

  ghost predicate OtherPreferred(w: View) {
    && w.Shaped()
    && forall t :: t in w.rec && w.rec[t].policy.Other? && w.Queued(t) ==>
         w.curr != w.idle && w.rec[w.curr].policy.Other?
  }

  /** A round of a quiet state charges the running SHORT task and leaves a quiet state. */
  lemma ShortRound(v: View, hz: Hz)
    requires Quiet(v) && !Vacant(v.q[SHORT_Q])
    ensures v.Shaped() && v.curr in v.rec && RecOk(v.rec[v.curr]) && IsShort(v.rec[v.curr])
    ensures var w := Round(v, hz);
            && Quiet(w) && w.idle == v.idle && TickedTo(v.rec[v.curr], w.rec[v.curr], hz)
            && w.rec == v.rec[v.curr := w.rec[v.curr]] && w.rec[v.curr].policy.Short?
            && (Vacant(w.q[SHORT_Q]) ==> OtherPreferred(w))
  {
    hide View.Inv, Schedule, Tick, View.Queued, View.In, Class, Head, TickShort, RecOk;
    Runner(v);
    TickHalts(v, hz);
    ShortTick(v, hz);
    ShortStaysShort(v.rec[v.curr], hz);
    var u := Tick(v, hz, false);
    if u.rec[u.curr].needResched {
      HaltedSchedule(u);
      InvShaped(Schedule(u, false));
      var x := TickShort(v.rec[v.curr], hz).rec;
      assert u.rec[v.curr] == x;
      assert Schedule(u, false).rec == v.rec[v.curr := x.(needResched := false)];
    } else {
      StayQuiet(v, hz);
    }
  }

  lemma ShortStaysShort(x: Rec, hz: Hz)
    requires IsShort(x)
    ensures TickShort(x, hz).rec.policy.Short?
  {
  }

  lemma StayQuiet(v: View, hz: Hz)
    requires Quiet(v) && !Vacant(v.q[SHORT_Q])
    requires v.Shaped() && v.curr in v.rec && RecOk(v.rec[v.curr]) && !Tick(v, hz, false).rec[v.curr].needResched
    ensures Quiet(Tick(v, hz, false)) && !Vacant(Tick(v, hz, false).q[SHORT_Q])
  {
    ShortTick(v, hz);
    TickHalts(v, hz);
  }

  // ---- the total budget -----------------------------------------------------------------

  function BudgetOf(x: Rec, hz: Hz): nat { if IsShort(x) then Budget(x, hz) else 0 }

  function TotalBudget(ts: seq<Tid>, rec: map<Tid, Rec>, hz: Hz): nat
    requires forall t :: t in ts ==> t in rec
  {
    if ts == [] then 0 else BudgetOf(rec[ts[0]], hz) + TotalBudget(ts[1..], rec, hz)
  }

  lemma {:induction false} BudgetUpdate(ts: seq<Tid>, rec: map<Tid, Rec>, hz: Hz, p: Tid, y: Rec)
    requires (forall t :: t in ts ==> t in rec) && Distinct(ts) && p in rec
    ensures TotalBudget(ts, rec[p := y], hz) ==
            TotalBudget(ts, rec, hz) + (if p in ts then BudgetOf(y, hz) - BudgetOf(rec[p], hz) else 0)
  {
    if ts != [] {
      BudgetUpdate(ts[1..], rec, hz, p, y);
    }
  }

  lemma {:induction false} BudgetZero(ts: seq<Tid>, rec: map<Tid, Rec>, hz: Hz)
    requires forall t :: t in ts ==> t in rec
    ensures TotalBudget(ts, rec, hz) == 0 <==> forall t :: t in ts ==> !IsShort(rec[t])
  {
    if ts != [] {
      BudgetZero(ts[1..], rec, hz);
      assert forall t :: t in ts <==> t == ts[0] || t in ts[1..];
    }
  }

  lemma TickedBudget(x: Rec, y: Rec, hz: Hz)
    requires IsShort(x) && TickedTo(x, y, hz)
    ensures BudgetOf(y, hz) == BudgetOf(x, hz) - 1
  {
    TickSpendsOne(x, hz);
    var z := TickShort(x, hz).rec;
    SameLater(y, z, hz, y.trial + 1);
  }

  /** ts lists every SHORT task once. */
  ghost predicate Covers(ts: seq<Tid>, v: View) {
    && Distinct(ts) && (forall t :: t in ts ==> t in v.rec)
    && (forall t :: t in v.rec && IsShort(v.rec[t]) ==> t in ts)
  }

  lemma SpentIffVacant(v: View, hz: Hz, ts: seq<Tid>)
    requires Quiet(v) && Covers(ts, v)
    ensures TotalBudget(ts, v.rec, hz) == 0 <==> Vacant(v.q[SHORT_Q])
  {
    BudgetZero(ts, v.rec, hz);
    if !Vacant(v.q[SHORT_Q]) {
      Runner(v);
    } else {
      forall t | t in v.rec ensures !IsShort(v.rec[t]) {
        if v.In(SHORT_Q, t) { assert v.q[SHORT_Q][v.rec[t].prio] == []; }
      }
    }
  }

  lemma RoundSpends(v: View, hz: Hz, ts: seq<Tid>)
    requires Quiet(v) && Covers(ts, v) && TotalBudget(ts, v.rec, hz) > 0
    ensures v.Shaped() && v.curr in v.rec && RecOk(v.rec[v.curr]) && IsShort(v.rec[v.curr])
    ensures var w := Round(v, hz);
            && Quiet(w) && Covers(ts, w) && TotalBudget(ts, w.rec, hz) == TotalBudget(ts, v.rec, hz) - 1
            && (TotalBudget(ts, w.rec, hz) == 0 ==> OtherPreferred(w))
            && forall t :: t in v.rec ==> t in w.rec && w.rec[t].policy == v.rec[t].policy
  {
    hide Quiet, TickedTo, Round, BudgetOf, OtherPreferred, Vacant;
    SpentIffVacant(v, hz, ts);
    ShortRound(v, hz);
    var w := Round(v, hz);
    var x, y := v.rec[v.curr], w.rec[v.curr];
    TickedBudget(x, y, hz);
    BudgetUpdate(ts, v.rec, hz, v.curr, y);
    StillCovers(v, ts, y, hz);
    SpentIffVacant(w, hz, ts);
  }

  lemma StillCovers(v: View, ts: seq<Tid>, y: Rec, hz: Hz)
    requires Covers(ts, v) && v.curr in v.rec && IsShort(v.rec[v.curr])
    ensures Covers(ts, v.(rec := v.rec[v.curr := y]))
    ensures forall w: View :: w.rec == v.rec[v.curr := y] ==> Covers(ts, w)
  {
  }

  /** Left to itself, a system without real-time tasks runs SHORT tasks for exactly the sum
      of their budgets. Before that a SHORT task is running; then all of them are overdue,
      and an OTHER task, not the idle task, is running if one is queued. */
  lemma {:induction false} ShortExhaustion(v: View, hz: Hz, ts: seq<Tid>, n: nat)
    requires Quiet(v) && Covers(ts, v) && n <= TotalBudget(ts, v.rec, hz)
    requires TotalBudget(ts, v.rec, hz) == 0 ==> OtherPreferred(v)
    ensures var w := Rounds(v, hz, n);
            && Quiet(w) && w.curr in w.rec
            && (n < TotalBudget(ts, v.rec, hz) ==> IsShort(w.rec[w.curr]))
            && (n == TotalBudget(ts, v.rec, hz) ==>
                  (forall t :: t in v.rec && v.rec[t].policy.Short? ==> t in w.rec && w.rec[t].overdue)
                  && OtherPreferred(w))
            && (forall t :: t in v.rec ==> t in w.rec && w.rec[t].policy == v.rec[t].policy)
    decreases n
  {
    hide Round, BudgetOf, OtherPreferred, Vacant, View.Inv, View.CurrQueued;
    if n == 0 {
      SpentIffVacant(v, hz, ts);
      BudgetZero(ts, v.rec, hz);
      if TotalBudget(ts, v.rec, hz) > 0 { Runner(v); } else { InvShaped(v); }
    } else {
      RoundSpends(v, hz, ts);
      ShortExhaustion(Round(v, hz), hz, ts, n - 1);
    }
  }

  // ---- turns within the first SHORT list ------------------------------------------------

  function Top(v: View): seq<Tid>
    requires v.Shaped() && !Vacant(v.q[SHORT_Q])
  {
    v.q[SHORT_Q][First(v.q[SHORT_Q])]
  }

  /** The slices of the first i tasks of a list. */
  function Wait(q: seq<Tid>, rec: map<Tid, Rec>, i: nat): nat
    requires i <= |q| && forall t :: t in q ==> t in rec
  {
    if i == 0 then 0 else rec[q[0]].timeSlice + Wait(q[1..], rec, i - 1)
  }

  lemma {:induction false} WaitSame(q: seq<Tid>, rec: map<Tid, Rec>, q': seq<Tid>, rec': map<Tid, Rec>, i: nat)
    requires i <= |q| && (forall t :: t in q ==> t in rec) && i <= |q'| && (forall t :: t in q' ==> t in rec')
    requires forall j :: 0 <= j < i ==> q[j] == q'[j] && rec[q[j]].timeSlice == rec'[q'[j]].timeSlice
    ensures Wait(q, rec, i) == Wait(q', rec', i)
  {
    if i > 0 {
      WaitSame(q[1..], rec, q'[1..], rec', i - 1);
    }
  }

  lemma {:induction false} WaitBound(q: seq<Tid>, rec: map<Tid, Rec>, i: nat, limit: nat)
    requires i <= |q| && forall t :: t in q ==> t in rec && rec[t].timeSlice <= limit
    ensures Wait(q, rec, i) <= i * limit
  {
    if i > 0 { WaitBound(q[1..], rec, i - 1, limit); }
  }

  lemma TopTasks(v: View)
    requires Quiet(v) && !Vacant(v.q[SHORT_Q])
    ensures v.Shaped() && Top(v) != [] && v.curr == Top(v)[0] && Distinct(Top(v)) && v.curr in v.rec
    ensures forall t :: t in Top(v) ==> t in v.rec
  {
    var k := First(v.q[SHORT_Q]);
    assert Cell(v.q[SHORT_Q][k], SHORT_Q, k, v.rec);
    forall t | t in Top(v) ensures t in v.rec { QueuedHome(v, SHORT_Q, k, t); }
  }

  /** The SHORT lists after a round. */
  lemma RoundLists(v: View, hz: Hz)
    requires Quiet(v) && !Vacant(v.q[SHORT_Q])
    ensures v.Shaped() && v.curr in v.rec && RecOk(v.rec[v.curr])
    ensures Round(v, hz).Shaped() && Round(v, hz).q[SHORT_Q] == Tick(v, hz, false).q[SHORT_Q]
  {
    hide View.Inv, Schedule, Tick, View.Queued, View.In, Class, Head, RecOk;
    TickHalts(v, hz);
    InvShaped(Tick(v, hz, false));
    HaltedScheduleLists(Tick(v, hz, false));
  }

  lemma HaltedScheduleLists(u: View)
    requires Halted(u)
    ensures Schedule(u, false).q[SHORT_Q] == u.q[SHORT_Q] && Schedule(u, false).Shaped()
  {
    HaltedSchedule(u);
  }

  /** Taking the head off the first occupied list, and putting it back at the tail. */
  lemma HeadOff(qs: Queues, k: nat, p: Tid)
    requires k == First(qs) < |qs| && qs[k][0] == p
    ensures var e := EraseAll(qs, p);
            && e[k] == qs[k][1..] && (|qs[k]| > 1 ==> First(e) == k)
            && First(InsertAt(e, k, |e[k]|, p)) == k && InsertAt(e, k, |e[k]|, p)[k] == qs[k][1..] + [p]
  {
    var e := EraseAll(qs, p);
    assert e[k] == qs[k][1..];
    assert forall j :: 0 <= j < k ==> e[j] == qs[j];
    var f := InsertAt(e, k, |e[k]|, p);
    assert f[k] == e[k] + [p] && forall j :: 0 <= j < k ==> f[j] == qs[j];
  }

  lemma TailLists(v: View, p: Tid, x: Rec, r: Role)
    requires v.Shaped() && 0 <= x.prio < MAX_PRIO
    ensures var e := EraseAll(v.q[SHORT_Q], p);
            ToTail(v, p, x, r).q[SHORT_Q] == if r == SHORT_Q then InsertAt(e, x.prio, |e[x.prio]|, p) else e
  {
  }

  /** The running task's tick, seen from the first SHORT list. */
  lemma TickLists(v: View, hz: Hz)
    requires Quiet(v) && !Vacant(v.q[SHORT_Q]) && v.curr in v.rec
    ensures v.Shaped() && RecOk(v.rec[v.curr])
    ensures var qs, x, k := v.q[SHORT_Q], v.rec[v.curr], First(v.q[SHORT_Q]);
            var e := EraseAll(qs, v.curr);
            Tick(v, hz, false).q[SHORT_Q] ==
            if TickShort(x, hz).move.Stay? then qs
            else if TickShort(x, hz).rec.overdue then e else InsertAt(e, k, |e[k]|, v.curr)
  {
    hide View.Inv, Tick, ToTail, View.Queued, View.In, Class, Head, Quiet, EraseAll;
    Runner(v);
    TopTasks(v);
    ShortTick(v, hz);
    ShortKeepsPrio(v.rec[v.curr], hz);
    var out := TickShort(v.rec[v.curr], hz);
    if out.move.Tail? {
      TailLists(v, v.curr, out.rec, out.move.role);
    }
  }

  lemma ShortKeepsPrio(x: Rec, hz: Hz)
    requires IsShort(x) && RecOk(x)
    ensures var out := TickShort(x, hz);
            && (out.rec.overdue || out.rec.prio == x.prio)
            && (x.timeSlice > 1 ==> out.move.Stay? && out.rec.timeSlice == x.timeSlice - 1 && !out.rec.overdue)
            && (x.timeSlice == 1 <==> out.move.Tail?)
  {
  }

  /** While the slice lasts the lists stay; when it ends the head of the first list goes to
      its tail, or leaves for the overdue array. */
  lemma TopAfterRound(v: View, hz: Hz)
    requires Quiet(v) && !Vacant(v.q[SHORT_Q])
    ensures v.Shaped() && v.curr in v.rec && RecOk(v.rec[v.curr])
    ensures var w, x, q, k := Round(v, hz), v.rec[v.curr], Top(v), First(v.q[SHORT_Q]);
            && w.Shaped()
            && (x.timeSlice != 1 ==> w.q[SHORT_Q] == v.q[SHORT_Q] && Top(w) == q)
            && (x.timeSlice == 1 ==>
                  var r := q[1..] + (if TickShort(x, hz).rec.overdue then [] else [q[0]]);
                  w.q[SHORT_Q][k] == r && (r != [] ==> !Vacant(w.q[SHORT_Q]) && Top(w) == r))
  {
    hide View.Inv, Tick, Round, View.Queued, View.In, Class, Head, Quiet, TickShort, First, EraseAll, InsertAt;
    Runner(v);
    TopTasks(v);
    RoundLists(v, hz);
    TickLists(v, hz);
    ShortKeepsPrio(v.rec[v.curr], hz);
    HeadOff(v.q[SHORT_Q], First(v.q[SHORT_Q]), v.curr);
  }

  /** A SHORT task at position i of the first SHORT list gets its turn after exactly the
      slices of the tasks ahead of it, and not before. */
  lemma {:induction false} TurnAfterWait(v: View, hz: Hz, i: nat, m: nat)
    requires Quiet(v) && !Vacant(v.q[SHORT_Q]) && i < |Top(v)|
    requires forall t :: t in Top(v)[..i] ==> t in v.rec && v.rec[t].timeSlice > 0
    requires (forall t :: t in Top(v) ==> t in v.rec) && m <= Wait(Top(v), v.rec, i)
    ensures Rounds(v, hz, m).curr == Top(v)[i] <==> m == Wait(Top(v), v.rec, i)
    decreases m
  {
    hide Round, View.Inv, View.CurrQueued, Vacant, TickShort, RecOk, Top, Quiet;
    QuietSound(v);
    TopTasks(v);
    var q := Top(v);
    if i > 0 {
      assert q[0] in q[..i];
      DistinctIndices(q, 0, i);
      if m > 0 {
        ShortRound(v, hz);
        WaitAfterRound(v, hz, i);
        var w := Round(v, hz);
        TurnAfterWait(w, hz, if v.rec[v.curr].timeSlice > 1 then i else i - 1, m - 1);
      }
    }
  }

  lemma QuietSound(v: View)
    requires Quiet(v)
    ensures v.Inv() && v.CurrQueued() && v.Shaped()
  {
  }

  /** The wait of the task at position i is one tick shorter after a round. */
  lemma WaitAfterRound(v: View, hz: Hz, i: nat)
    requires Quiet(v) && !Vacant(v.q[SHORT_Q]) && 0 < i < |Top(v)|
    requires forall t :: t in Top(v)[..i] ==> t in v.rec && v.rec[t].timeSlice > 0
    requires forall t :: t in Top(v) ==> t in v.rec
    ensures v.Shaped() && v.curr in v.rec && RecOk(v.rec[v.curr])
    ensures var w, x, q := Round(v, hz), v.rec[v.curr], Top(v);
            && w.Shaped() && !Vacant(w.q[SHORT_Q]) && (forall t :: t in Top(w) ==> t in w.rec)
            && var j := if x.timeSlice > 1 then i else i - 1;
               && j < |Top(w)| && Top(w)[j] == q[i] && Wait(Top(w), w.rec, j) == Wait(q, v.rec, i) - 1
               && (forall t :: t in Top(w)[..j] ==> t in w.rec && w.rec[t].timeSlice > 0)
  {
    hide Round, View.Inv, View.CurrQueued, Vacant, RecOk, Top, Quiet, TickShort, Head;
    QuietSound(v);
    TopTasks(v);
    var q, x := Top(v), v.rec[v.curr];
    assert q[0] in q[..i];
    TopAfterRound(v, hz);
    ShortRound(v, hz);
    ShortKeepsPrio(x, hz);
    var w := Round(v, hz);
    TopTasks(w);
    if x.timeSlice > 1 {
      WaitTicked(q, v.rec, w.rec, i);
    } else {
      WaitMoved(q, v.rec, Top(w), w.rec, i);
    }
  }

  lemma WaitTicked(q: seq<Tid>, rec: map<Tid, Rec>, rec': map<Tid, Rec>, i: nat)
    requires 0 < i <= |q| && Distinct(q) && (forall t :: t in q ==> t in rec && t in rec')
    requires rec' == rec[q[0] := rec'[q[0]]] && rec'[q[0]].timeSlice == rec[q[0]].timeSlice - 1 > 0
    requires forall t :: t in q[..i] ==> rec[t].timeSlice > 0
    ensures Wait(q, rec', i) == Wait(q, rec, i) - 1
    ensures forall t :: t in q[..i] ==> rec'[t].timeSlice > 0
  {
    WaitSame(q[1..], rec, q[1..], rec', i - 1);
  }

  lemma WaitMoved(q: seq<Tid>, rec: map<Tid, Rec>, q': seq<Tid>, rec': map<Tid, Rec>, i: nat)
    requires 0 < i <= |q| && Distinct(q) && (forall t :: t in q ==> t in rec)
    requires q[1..] <= q' && (forall t :: t in q' ==> t in rec')
    requires q[0] in rec' && rec' == rec[q[0] := rec'[q[0]]] && rec[q[0]].timeSlice == 1
    requires forall t :: t in q[..i] ==> rec[t].timeSlice > 0
    ensures i < |q| ==> q'[i - 1] == q[i]
    ensures Wait(q', rec', i - 1) == Wait(q, rec, i) - 1
    ensures forall t :: t in q'[..i - 1] ==> t in rec' && rec'[t].timeSlice > 0
  {
    assert i < |q| ==> q[i] == q[1..][i - 1] == q'[i - 1];
    WaitSame(q[1..], rec, q', rec', i - 1);
    forall t | t in q'[..i - 1] ensures t in rec' && rec'[t].timeSlice > 0 {
      var j :| 0 <= j < i - 1 && q'[j] == t;
      assert q[1..][j] == t && q[j + 1] == t && t in q[..i];
    }
  }
}
