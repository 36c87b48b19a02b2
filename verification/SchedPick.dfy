/** The constant-time pick of schedule() against the policy it implements: choose the
    least runnable task in the order of scheduling classes, rounds, priorities and queue
    positions. */
module SchedPick {
  import opened Lists
  import opened TaskModel
  import opened SchedSpec
  import opened SchedInvariant

  /** Scheduling classes, best first: real-time, SHORT, OTHER, overdue. */
  function Class(x: Rec): nat {
    if x.policy.Short? then (if x.overdue then 3 else 1)
    else if IsRt(x) then 0 else 2
  }

  /** Tasks that have used up their slice wait for the next round. */
  function Round(v: View, t: Tid): nat
    requires v.Shaped() && t in v.rec
  {
    if v.In(EXPIRED, t) then 1 else 0
  }

  /** a is to run before b: by class, then round, then priority, then queue position. */
  predicate Before(v: View, a: Tid, b: Tid)
    requires v.Shaped() && a in v.rec && b in v.rec && v.Queued(a) && v.Queued(b)
  {
    var x, y := v.rec[a], v.rec[b];
    if Class(x) != Class(y) then Class(x) < Class(y)
    else if Round(v, a) != Round(v, b) then Round(v, a) < Round(v, b)
    else if x.prio != y.prio then x.prio < y.prio
    else v.RoleOf(a) == v.RoleOf(b) && IndexOf(v.q[v.RoleOf(a)][x.prio], a) < IndexOf(v.q[v.RoleOf(b)][y.prio], b)
  }

  /** The task a scheduler without any index would pick. */
  ghost predicate IsLeast(v: View, p: Tid)
    requires v.Shaped()
  {
    && p in v.rec && v.Queued(p)
    && forall t :: t in v.rec && t != p && v.Queued(t) ==> Before(v, p, t)
  }

  lemma HeadFirst(v: View, r: Role, t: Tid)
    requires v.Inv() && t in v.rec && v.In(r, t)
    ensures !Vacant(v.q[r]) && First(v.q[r]) <= v.rec[t].prio
    ensures t != Head(v.q[r]) && First(v.q[r]) == v.rec[t].prio ==> IndexOf(v.q[r][v.rec[t].prio], t) > 0
  {
  }

  /** What a queued task's class says about the role it is queued in. */
  lemma ClassRole(v: View, t: Tid)
    requires v.Inv() && t in v.rec && v.Queued(t)
    ensures var x := v.rec[t];
            match Class(x)
            case 0 => v.In(ACTIVE, t) && !v.In(EXPIRED, t) && x.prio < MAX_RT_PRIO && v.RoleOf(t) == ACTIVE
            case 1 => v.In(SHORT_Q, t) && !v.In(EXPIRED, t) && v.RoleOf(t) == SHORT_Q
            case 2 => (v.In(ACTIVE, t) || v.In(EXPIRED, t)) && x.prio >= MAX_RT_PRIO
                      && (v.RoleOf(t) == ACTIVE <==> v.In(ACTIVE, t))
                      && (v.In(EXPIRED, t) ==> !v.In(ACTIVE, t) && v.RoleOf(t) == EXPIRED)
            case _ => v.In(OVERDUE_Q, t) && !v.In(EXPIRED, t) && v.RoleOf(t) == OVERDUE_Q
  {
    QueuedHome(v, v.RoleOf(t), v.rec[t].prio, t);
    if v.In(EXPIRED, t) { OneRole(v, EXPIRED, v.RoleOf(t), t); }
  }

  /** The head of a list family, as the rest of the argument needs it. */
  lemma HeadClass(v: View, r: Role)
    requires v.Inv() && !Vacant(v.q[r])
    ensures var h := Head(v.q[r]);
            && h in v.rec && v.In(r, h) && v.Queued(h) && v.RoleOf(h) == r && v.rec[h].prio == First(v.q[r])
            && IndexOf(v.q[r][First(v.q[r])], h) == 0
            && Class(v.rec[h]) == (if r == SHORT_Q then 1 else if r == OVERDUE_Q then 3
                                   else if First(v.q[r]) < MAX_RT_PRIO then 0 else 2)
            && Round(v, h) == (if r == EXPIRED then 1 else 0)
  {
    var h := Head(v.q[r]);
    HeadQueued(v, r);
    OneRole(v, r, v.RoleOf(h), h);
    QueuedHome(v, r, First(v.q[r]), h);
    if v.In(EXPIRED, h) { OneRole(v, EXPIRED, r, h); }
  }

  /** Which array the pick comes from, in terms of the state before the array switch. */
  function PickRole(v: View): Role
    requires v.Shaped()
  {
    if First(v.q[ACTIVE]) < MAX_RT_PRIO then ACTIVE
    else if !Vacant(v.q[SHORT_Q]) then SHORT_Q
    else if !Vacant(v.q[ACTIVE]) then ACTIVE
    else if !Vacant(v.q[EXPIRED]) then EXPIRED
    else OVERDUE_Q
  }

  lemma PickFrom(v: View)
    requires v.Inv() && !Empty(v)
    ensures !Vacant(v.q[PickRole(v)]) && Pick(SwitchArrays(v)) == Head(v.q[PickRole(v)])
  {
    if !Vacant(v.q[EXPIRED]) { HeadQueued(v, EXPIRED); HeadClassExpired(v); }
  }

  lemma HeadClassExpired(v: View)
    requires v.Inv() && !Vacant(v.q[EXPIRED])
    ensures First(v.q[EXPIRED]) >= MAX_RT_PRIO
  {
    HeadQueued(v, EXPIRED);
    QueuedHome(v, EXPIRED, First(v.q[EXPIRED]), Head(v.q[EXPIRED]));
  }

  /** schedule() picks the least runnable task, across the array switch, and no other
      task is least. */
  lemma PickIsLeast(v: View)
    requires v.Inv() && !Empty(v)
    ensures IsLeast(v, Pick(SwitchArrays(v)))
    ensures forall p :: IsLeast(v, p) ==> p == Pick(SwitchArrays(v))
  {
    hide View.Inv, View.RoleOf, First, FirstFrom, View.In;
    InvShaped(v);
    PickFrom(v);
    var r := PickRole(v);
    var h := Head(v.q[r]);
    HeadClass(v, r);
    forall t | t in v.rec && t != h && v.Queued(t) ensures Before(v, h, t) {
      PickBeats(v, t);
    }
  }

  lemma PickBeats(v: View, t: Tid)
    requires v.Inv() && !Vacant(v.q[PickRole(v)]) && t in v.rec && v.Queued(t) && t != Head(v.q[PickRole(v)])
    ensures var h := Head(v.q[PickRole(v)]); h in v.rec && v.Queued(h) && Before(v, h, t)
  {
    hide View.Inv, First, FirstFrom;
    InvShaped(v);
    HeadClass(v, PickRole(v));
    ClassRole(v, t);
    HeadFirst(v, v.RoleOf(t), t);
  }

  /** A yield gives way: if another task is left in the list of the running task, or, for a
      task that is not real-time, anywhere in its array, then the schedule() that follows
      switches to another task, whatever its state and in whichever array it is queued. */
  lemma YieldGivesWay(v: View, signalPending: bool)
    requires v.Inv() && v.CurrQueued() && v.curr != v.idle
    ensures v.Queued(v.curr) && RecOk(v.rec[v.curr])
    ensures var rest, x := EraseAll(v.q[v.RoleOf(v.curr)], v.curr), v.rec[v.curr];
            && 0 <= x.prio < |rest|
            && (rest[x.prio] != [] || (!IsRt(x) && !Vacant(rest)) ==>
                  Schedule(YieldPlace(v), signalPending).curr != v.curr)
  {
    hide View.Inv, YieldPlace, Leave, SwitchArrays, Pick, Vacant, EraseAll;
    InvShaped(v);
    var p, r, x := v.curr, v.RoleOf(v.curr), v.rec[v.curr];
    RecAt(v, p);
    PrioOf(x);
    ErasedSize(v.q[r], p);
    var rest := EraseAll(v.q[r], p);
    if rest[x.prio] != [] || (!IsRt(x) && !Vacant(rest)) {
      YieldKeeps(v);
      YieldedList(v);
      NotChosen(YieldPlace(v), r, signalPending);
    }
  }

  /** p is not first in role r. */
  ghost predicate NotFirst(w: View, p: Tid, r: Role) {
    && w.Inv() && p in w.rec && p != w.idle && w.In(r, p)
    && (First(w.q[r]) < w.rec[p].prio || w.q[r][w.rec[p].prio][0] != p)
  }

  /** schedule() does not pick a running task that is not first in its role. */
  lemma NotChosen(w: View, r: Role, signalPending: bool)
    requires NotFirst(w, w.curr, r)
    ensures Schedule(w, signalPending).curr != w.curr
  {
    hide View.Inv, Pick, Leave, SwitchArrays;
    InvShaped(w);
    var p, u := w.curr, Leave(w, signalPending);
    LeaveNotFirst(w, r, signalPending);
    if !u.Queued(p) {
      SwitchKeeps(u);
      SwitchQueued(u, p);
      PickQueued(u);
    } else {
      SwitchNotFirst(u, p, r);
      NotPicked(SwitchArrays(u), p, if SwitchArrays(u) != u && r == EXPIRED then ACTIVE else r);
    }
  }

  lemma LeaveNotFirst(w: View, r: Role, signalPending: bool)
    requires NotFirst(w, w.curr, r)
    ensures var u := Leave(w, signalPending);
            && u.Inv() && u.curr == w.curr && u.idle == w.idle && w.curr in u.rec
            && (u.Queued(w.curr) ==> NotFirst(u, w.curr, r))
  {
    hide View.Inv, Erase;
    InvShaped(w);
    LeaveKeeps(w, signalPending);
    if !w.rec[w.curr].state.Running? && !(w.rec[w.curr].state.Interruptible? && signalPending) {
      EraseOwn(w, w.curr);
    }
  }

  lemma EraseOwn(w: View, p: Tid)
    requires w.Inv() && p in w.rec
    ensures Erase(w, p).Shaped() && !Erase(w, p).Queued(p) && Erase(w, p).rec == w.rec && Erase(w, p).curr == w.curr
    ensures Erase(w, p).idle == w.idle
  {
    EraseInv(w, p, w.rec[p]);
    assert SetRec(w, p, w.rec[p]) == w;
  }

  /** Where a task that has yielded stands: behind another one, or behind a whole list. */
  lemma YieldedList(v: View)
    requires v.Inv() && v.Queued(v.curr) && RecOk(v.rec[v.curr])
    requires var rest, x := EraseAll(v.q[v.RoleOf(v.curr)], v.curr), v.rec[v.curr];
             rest[x.prio] != [] || (!IsRt(x) && !Vacant(rest))
    ensures var w, r := YieldPlace(v), v.RoleOf(v.curr);
            && w.Shaped() && v.curr in w.rec && w.curr == v.curr && w.idle == v.idle && v.curr != v.idle
            && w.In(r, v.curr)
            && (First(w.q[r]) < w.rec[v.curr].prio || w.q[r][w.rec[v.curr].prio][0] != v.curr)
  {
    hide View.Inv, RecOk, EraseAll, Place, Insert, Remove;
    InvShaped(v);
    var p, r, x := v.curr, v.RoleOf(v.curr), v.rec[v.curr];
    RecAt(v, p);
    PrioOf(x);
    ErasedSize(v.q[r], p);
    var rest := EraseAll(v.q[r], p);
    var j := YieldPrio(rest, x.prio, IsRt(x));
    var i := YieldIndex(rest[j], IsRt(x));
    var w := YieldPlace(v);
    YieldedAt(v, p, x.(prio := j), r, i);
    if rest[j] != [] {
      HeadStays(v, p, r, j, i);
    } else {
      InsertAlone(p);
      assert First(rest) < j && w.q[r][First(rest)] != [];
    }
  }

  lemma PrioOf(x: Rec)
    requires RecOk(x)
    ensures 0 <= x.prio < MAX_PRIO
  {
  }

  lemma ErasedSize(qs: Queues, p: Tid)
    ensures |EraseAll(qs, p)| == |qs| && forall k :: 0 <= k < |qs| ==> EraseAll(qs, p)[k] == Remove(qs[k], p)
  {
  }

  lemma YieldedAt(v: View, p: Tid, x: Rec, r: Role, i: nat)
    requires v.Shaped() && 0 <= x.prio < MAX_PRIO && i <= |Remove(v.q[r][x.prio], p)|
    ensures Place(v, p, x, r, i).q[r] == InsertAt(EraseAll(v.q[r], p), x.prio, i, p)
  {
  }

  lemma InsertAlone(p: Tid)
    ensures Insert([], 0, p) == [p]
  {
  }

  lemma HeadStays(v: View, p: Tid, r: Role, j: nat, i: nat)
    requires v.Inv() && j < MAX_PRIO && 0 < i <= |Remove(v.q[r][j], p)|
    ensures var q := Insert(Remove(v.q[r][j], p), i, p); p in q && q[0] != p
  {
    assert Cell(v.q[r][j], r, j, v.rec);
    var q := Remove(v.q[r][j], p);
    RemoveMembers(v.q[r][j], p);
    assert q[0] in q && Insert(q, i, p)[i] == p;
  }

  lemma SwitchQueued(u: View, p: Tid)
    requires u.Inv() && p in u.rec
    ensures SwitchArrays(u).rec == u.rec && (SwitchArrays(u).Queued(p) <==> u.Queued(p))
    ensures SwitchArrays(u).In(SHORT_Q, p) <==> u.In(SHORT_Q, p)
  {
    var s := SwitchArrays(u);
    assert s != u ==> (s.In(ACTIVE, p) <==> u.In(EXPIRED, p)) && (s.In(EXPIRED, p) <==> u.In(ACTIVE, p));
  }

  /** The array switch may change the role, but not the place within it. */
  lemma SwitchNotFirst(u: View, p: Tid, r: Role)
    requires NotFirst(u, p, r)
    ensures NotFirst(SwitchArrays(u), p, if SwitchArrays(u) != u && r == EXPIRED then ACTIVE else r)
  {
    hide View.Inv;
    InvShaped(u);
    SwitchKeeps(u);
    if Vacant(u.q[ACTIVE]) { assert u.q[ACTIVE][u.rec[p].prio] == []; }
  }

  lemma NotPicked(w: View, p: Tid, r: Role)
    requires NotFirst(w, p, r)
    ensures Pick(w) != p
  {
    forall a: Role | !Vacant(w.q[a]) ensures Head(w.q[a]) != p {
      HeadQueued(w, a);
      if Head(w.q[a]) == p {
        QueuedHome(w, a, First(w.q[a]), p);
        OneRole(w, a, r, p);
      }
    }
  }

  // ---- the wake-up test --------------------------------------------------------------------

  /** When the comparison of raw priorities in try_to_wake_up says what the order of
      scheduling says, for a woken task x and a running task y. It does between tasks of one
      class and whenever a real-time task meets SHORT or OTHER; it goes wrong for every
      overdue task but one against a real-time task of priority 0, between SHORT and OTHER
      depending on the numbers, and for a running task whose slice is over. */
  predicate TestAgrees(x: Rec, y: Rec, expired: bool) {
    var a, b := Class(x), Class(y);
    if a == 3 && b == 3 then true
    else if a == 3 then b == 0 && y.prio == 0
    else if b == 3 then false
    else if a == 0 || b == 0 || (a == 1 && b == 1) then true
    else if a == b then !expired || x.prio < y.prio
    else if a < b then x.prio < y.prio
    else x.prio >= y.prio
  }

  /** try_to_wake_up asks for a reschedule exactly when its comparison succeeds, and that is
      the case exactly when the woken task is to run before the running one, if and only if
      TestAgrees. */
  lemma WakePreempts(v: View, p: Tid, hz: Hz, slept: nat)
    requires v.Inv() && v.CurrQueued() && p in v.rec && p != v.idle && !v.Queued(p) && v.curr != v.idle
    ensures RecOk(v.rec[p])
    ensures var x := v.rec[p].(state := Running);
            var w, y := Activate(SetRec(v, p, x), p, hz, slept), ActivateRec(x, hz, slept);
            && w.Shaped() && p in w.rec && w.curr == v.curr && w.curr in w.rec && w.Queued(p) && w.Queued(w.curr)
            && TryToWakeUp(v, p, hz, slept) == (if y.prio < v.rec[v.curr].prio then Resched(w) else w)
            && ((y.prio < v.rec[v.curr].prio <==> Before(w, p, v.curr))
                <==> TestAgrees(y, v.rec[v.curr], v.In(EXPIRED, v.curr)))
  {
    hide View.Inv, Activate, ToTail, ActivateRec, Before, TestAgrees;
    RecAt(v, p);
    var x := v.rec[p].(state := Running);
    ActivateAs(v, p, x, hz, slept);
    var w := Activate(SetRec(v, p, x), p, hz, slept);
    InvShaped(w);
    var y := ActivateRec(x, hz, slept);
    ActivateHome(x, hz, slept);
    TailLast(v, p, y, Home(x));
    TailOthers(v, p, y, Home(x), EXPIRED, v.curr);
    TestExact(w, p, w.curr);
  }

  lemma TailOthers(v: View, p: Tid, x: Rec, r: Role, a: Role, t: Tid)
    requires v.Inv() && RecOk(x) && t in v.rec && t != p
    ensures ToTail(v, p, x, r).In(a, t) <==> v.In(a, t)
  {
    PlaceOthers(v, p, x, r, |Remove(v.q[r][x.prio], p)|, a, t);
  }

  lemma ActivateHome(x: Rec, hz: Hz, slept: nat)
    requires RecOk(x)
    ensures RecOk(ActivateRec(x, hz, slept)) && Home(ActivateRec(x, hz, slept)) == Home(x)
  {
  }

  /** p stands at the tail of its list in role r. */
  ghost predicate Last(w: View, r: Role, p: Tid) {
    && w.Shaped() && p in w.rec && 0 <= w.rec[p].prio < MAX_PRIO
    && var q := w.q[r][w.rec[p].prio]; q != [] && q[|q| - 1] == p
  }

  /** ... in its home role. */
  ghost predicate AtTail(w: View, p: Tid) { p in w.rec && Last(w, Home(w.rec[p]), p) }

  lemma TailLast(v: View, p: Tid, x: Rec, r: Role)
    requires v.Inv() && RecOk(x)
    ensures Last(ToTail(v, p, x, r), r, p)
  {
    var q := Remove(v.q[r][x.prio], p);
    assert ToTail(v, p, x, r).q[r][x.prio] == Insert(q, |q|, p);
  }

  lemma TestExact(w: View, p: Tid, c: Tid)
    requires w.Inv() && p in w.rec && c in w.rec && w.Queued(p) && w.Queued(c) && p != c && AtTail(w, p)
    ensures (w.rec[p].prio < w.rec[c].prio <==> Before(w, p, c)) <==> TestAgrees(w.rec[p], w.rec[c], w.In(EXPIRED, c))
  {
    hide View.Inv;
    InvShaped(w);
    var x, y := w.rec[p], w.rec[c];
    RecAt(w, p);
    RecAt(w, c);
    ClassRole(w, p);
    ClassRole(w, c);
    TailHome(w, p);
    if w.RoleOf(p) == w.RoleOf(c) && x.prio == y.prio {
      ListDistinct(w, w.RoleOf(p), x.prio);
      BeforeLast(w.q[w.RoleOf(p)][x.prio], p, c);
    }
  }

  /** The last task of a list runs after all others in it. */
  lemma LastBehind(w: View, r: Role, p: Tid, t: Tid)
    requires w.Inv() && Last(w, r, p) && t in w.rec && t != p && w.In(r, t) && w.rec[t].prio == w.rec[p].prio
    ensures w.In(r, p) && w.Queued(p) && w.Queued(t) && Before(w, t, p)
  {
    var k := w.rec[p].prio;
    assert p in w.q[r][k];
    OneRole(w, r, w.RoleOf(p), p);
    OneRole(w, r, w.RoleOf(t), t);
    ClassRole(w, p);
    ClassRole(w, t);
    ListDistinct(w, r, k);
    BeforeLast(w.q[r][k], p, t);
    SameList(w, r, p, t);
  }

  /** Tasks of one list are in one class and one round. */
  lemma SameList(w: View, r: Role, p: Tid, t: Tid)
    requires w.Inv() && p in w.rec && t in w.rec && w.In(r, p) && w.In(r, t) && w.rec[t].prio == w.rec[p].prio
    ensures Class(w.rec[p]) == Class(w.rec[t]) && Round(w, p) == Round(w, t)
  {
    QueuedHome(w, r, w.rec[p].prio, p);
    QueuedHome(w, r, w.rec[t].prio, t);
    if w.In(EXPIRED, p) { OneRole(w, r, EXPIRED, p); }
    if w.In(EXPIRED, t) { OneRole(w, r, EXPIRED, t); }
  }

  lemma ListDistinct(w: View, r: Role, k: int)
    requires w.Inv() && 0 <= k < MAX_PRIO
    ensures Distinct(w.q[r][k])
  {
    assert Cell(w.q[r][k], r, k, w.rec);
  }

  lemma TailHome(w: View, p: Tid)
    requires w.Inv() && AtTail(w, p)
    ensures w.Queued(p) && w.RoleOf(p) == Home(w.rec[p]) && (w.RoleOf(p) != EXPIRED ==> !w.In(EXPIRED, p))
  {
    var r, k := Home(w.rec[p]), w.rec[p].prio;
    assert p in w.q[r][k];
    OneRole(w, r, w.RoleOf(p), p);
    if w.In(EXPIRED, p) { OneRole(w, EXPIRED, r, p); }
  }
}
