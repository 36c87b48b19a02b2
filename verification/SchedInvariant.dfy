/** The class invariants of the runqueue are kept by every scheduler step, and so by
    every run. */
module SchedInvariant {
  import opened Lists
  import opened TaskModel
  import opened SchedSpec

  // ---- what the building blocks keep ----------------------------------------------

  lemma {:induction false} PlacedHas(q: seq<Tid>, r: Role, k: int, rec: map<Tid, Rec>, t: Tid)
    requires Placed(q, r, k, rec) && t in q
    ensures t in rec && rec[t].prio == k && Fits(r, rec[t])
  {
    if t != q[0] { PlacedHas(q[1..], r, k, rec, t); }
  }

  lemma {:induction false} PlacedSet(q: seq<Tid>, r: Role, k: int, rec: map<Tid, Rec>, p: Tid, x: Rec)
    requires Placed(q, r, k, rec)
    requires p in q ==> x.prio == k && Fits(r, x)
    ensures Placed(q, r, k, rec[p := x])
  {
    if q != [] { PlacedSet(q[1..], r, k, rec, p, x); }
  }

  lemma {:induction false} PlacedRemove(q: seq<Tid>, r: Role, k: int, rec: map<Tid, Rec>, p: Tid)
    requires Placed(q, r, k, rec)
    ensures Placed(Remove(q, p), r, k, rec)
  {
    if q != [] && q[0] != p {
      PlacedRemove(q[1..], r, k, rec, p);
      assert Remove(q, p)[1..] == Remove(q[1..], p);
    }
  }

  lemma {:induction false} PlacedInsert(q: seq<Tid>, r: Role, k: int, rec: map<Tid, Rec>, p: Tid, i: nat)
    requires Placed(q, r, k, rec) && i <= |q|
    requires p in rec && rec[p].prio == k && Fits(r, rec[p])
    ensures Placed(Insert(q, i, p), r, k, rec)
    decreases i
  {
    if i == 0 {
      assert Insert(q, 0, p)[1..] == q;
    } else {
      PlacedInsert(q[1..], r, k, rec, p, i - 1);
      assert Insert(q, i, p)[1..] == Insert(q[1..], i - 1, p);
    }
  }

  lemma {:induction false} ApartIff(a: seq<Tid>, b: seq<Tid>)
    ensures Apart(a, b) <==> forall t :: t in a ==> t !in b
  {
    if a != [] {
      ApartIff(a[1..], b);
      assert forall t :: t in a <==> t == a[0] || t in a[1..];
    }
  }

  /** The per-list effect of erasing p and giving it new fields. */
  lemma CellErase(q: seq<Tid>, r: Role, k: int, rec: map<Tid, Rec>, p: Tid, x: Rec)
    requires Cell(q, r, k, rec)
    ensures Cell(Remove(q, p), r, k, rec[p := x]) && p !in Remove(q, p)
    ensures forall t :: t in Remove(q, p) <==> t in q && t != p
  {
    RemoveMembers(q, p);
    PlacedRemove(q, r, k, rec, p);
    PlacedSet(Remove(q, p), r, k, rec, p, x);
  }

  lemma CellInsert(q: seq<Tid>, r: Role, k: int, rec: map<Tid, Rec>, p: Tid, i: nat)
    requires Cell(q, r, k, rec) && p !in q && i <= |q|
    requires p in rec && rec[p].prio == k && Fits(r, rec[p])
    ensures Cell(Insert(q, i, p), r, k, rec)
    ensures forall t :: t in Insert(q, i, p) <==> t in q || t == p
  {
    InsertMembers(q, i, p);
    PlacedInsert(q, r, k, rec, p, i);
  }

  lemma QueuedHome(v: View, r: Role, k: int, t: Tid)
    requires v.Inv() && 0 <= k < MAX_PRIO && t in v.q[r][k]
    ensures t in v.rec && v.rec[t].prio == k && Fits(r, v.rec[t]) && v.In(r, t) && t != v.idle
  {
    assert Cell(v.q[r][k], r, k, v.rec);
    PlacedHas(v.q[r][k], r, k, v.rec, t);
  }

  /** A task is queued in at most one role. */
  lemma OneRole(v: View, a: Role, b: Role, t: Tid)
    requires v.Inv() && t in v.rec && v.In(a, t) && v.In(b, t)
    ensures a == b
  {
    QueuedHome(v, a, v.rec[t].prio, t);
    QueuedHome(v, b, v.rec[t].prio, t);
    ApartIff(v.q[ACTIVE][v.rec[t].prio], v.q[EXPIRED][v.rec[t].prio]);
  }

  lemma SetRecInv(v: View, p: Tid, x: Rec)
    requires v.Inv()
    requires p != v.idle ==> RecOk(x)
    requires p == v.idle ==> SamePlace(v.rec[p], x) && x.state.Running?
    requires p in v.rec && v.Queued(p) ==> SamePlace(v.rec[p], x)
    ensures SetRec(v, p, x).Inv()
    ensures p !in v.rec || !v.Queued(p) ==> !SetRec(v, p, x).Queued(p)
  {
    var w := SetRec(v, p, x);
    if w.Queued(p) {
      QueuedHome(v, w.RoleOf(p), x.prio, p);
    }
    forall r, k | 0 <= r < 4 && 0 <= k < MAX_PRIO
      ensures Cell(w.q[r][k], r, k, w.rec)
    {
      assert Cell(v.q[r][k], r, k, v.rec);
      if p in v.q[r][k] { QueuedHome(v, r, k, p); }
      PlacedSet(v.q[r][k], r, k, v.rec, p, x);
    }
  }

  /** Erasing a task and changing its fields. */
  lemma EraseInv(v: View, p: Tid, x: Rec)
    requires v.Inv()
    requires p != v.idle ==> RecOk(x)
    requires p == v.idle ==> SamePlace(v.rec[p], x) && x.state.Running?
    ensures Erase(SetRec(v, p, x), p).Inv()
    ensures !Erase(SetRec(v, p, x), p).Queued(p)
  {
    var w := Erase(SetRec(v, p, x), p);
    forall r, k | 0 <= r < 4 && 0 <= k < MAX_PRIO
      ensures Cell(w.q[r][k], r, k, w.rec) && p !in w.q[r][k]
    {
      assert Cell(v.q[r][k], r, k, v.rec);
      CellErase(v.q[r][k], r, k, v.rec, p, x);
      assert w.q[r][k] == Remove(v.q[r][k], p);
    }
    forall k | 0 <= k < MAX_PRIO ensures Apart(w.q[ACTIVE][k], w.q[EXPIRED][k]) {
      EraseApart(v, p, k);
      assert w.q[ACTIVE][k] == Remove(v.q[ACTIVE][k], p) && w.q[EXPIRED][k] == Remove(v.q[EXPIRED][k], p);
    }
  }

  lemma EraseApart(v: View, p: Tid, k: int)
    requires v.Inv() && 0 <= k < MAX_PRIO
    ensures Apart(Remove(v.q[ACTIVE][k], p), Remove(v.q[EXPIRED][k], p))
  {
    var a, b := v.q[ACTIVE][k], v.q[EXPIRED][k];
    assert Cell(a, ACTIVE, k, v.rec) && Cell(b, EXPIRED, k, v.rec);
    RemoveMembers(a, p);
    RemoveMembers(b, p);
    ApartIff(a, b);
    ApartIff(Remove(a, p), Remove(b, p));
  }

  lemma PlaceInv(v: View, p: Tid, x: Rec, r: Role, i: nat)
    requires v.Inv() && p != v.idle && RecOk(x) && Fits(r, x)
    requires i <= |Remove(v.q[r][x.prio], p)|
    ensures Place(v, p, x, r, i).Inv()
    ensures Place(v, p, x, r, i).In(r, p)
  {
    EraseInv(v, p, x);
    var u := Erase(SetRec(v, p, x), p);
    var w := Place(v, p, x, r, i);
    var q := u.q[r][x.prio];
    assert Cell(q, r, x.prio, u.rec);
    assert !u.In(r, p);
    CellInsert(q, r, x.prio, u.rec, p, i);
    forall a, k | 0 <= a < 4 && 0 <= k < MAX_PRIO
      ensures Cell(w.q[a][k], a, k, w.rec)
    {
      assert Cell(u.q[a][k], a, k, u.rec);
      assert w.q[a][k] == if a == r && k == x.prio then Insert(q, i, p) else u.q[a][k];
    }
    forall k | 0 <= k < MAX_PRIO ensures Apart(w.q[ACTIVE][k], w.q[EXPIRED][k]) {
      PlaceApart(u, p, r, x.prio, i, k);
    }
  }

  lemma PlaceApart(u: View, p: Tid, r: Role, at: int, i: nat, k: int)
    requires u.Inv() && p in u.rec && !u.Queued(p) && 0 <= at < MAX_PRIO && 0 <= k < MAX_PRIO && i <= |u.q[r][at]|
    requires u.rec[p].prio == at
    ensures var w := u.q[r := InsertAt(u.q[r], at, i, p)]; Apart(w[ACTIVE][k], w[EXPIRED][k])
  {
    var w := u.q[r := InsertAt(u.q[r], at, i, p)];
    ApartIff(u.q[ACTIVE][k], u.q[EXPIRED][k]);
    ApartIff(w[ACTIVE][k], w[EXPIRED][k]);
    if k == at && r <= EXPIRED {
      assert Cell(u.q[r][at], r, at, u.rec);
      assert p !in u.q[ACTIVE][at] && p !in u.q[EXPIRED][at] by { assert !u.In(ACTIVE, p) && !u.In(EXPIRED, p); }
      InsertMembers(u.q[r][at], i, p);
    }
  }

  // ---- what every operation keeps ---------------------------------------------------

  lemma TickKeeps(v: View, hz: Hz, toExpired: bool)
    requires v.Inv() && v.CurrQueued()
    ensures var w := Tick(v, hz, toExpired);
            w.Inv() && w.CurrQueued() && w.curr == v.curr && w.idle == v.idle && w.rec.Keys == v.rec.Keys
  {
    if v.curr != v.idle {
      var x := v.rec[v.curr];
      var out := TickRec(x, hz, v.In(ACTIVE, v.curr), toExpired);
      TickRecOk(x, hz, v.In(ACTIVE, v.curr), toExpired);
      if out.move.Stay? {
        SetRecInv(v, v.curr, out.rec);
      } else {
        PlaceInv(v, v.curr, out.rec, out.move.role, |Remove(v.q[out.move.role][out.rec.prio], v.curr)|);
      }
    }
  }

  /** Placing one task leaves every other task where it is. */
  lemma PlaceOthers(v: View, p: Tid, x: Rec, r: Role, i: nat, a: Role, t: Tid)
    requires v.Inv() && RecOk(x) && i <= |Remove(v.q[r][x.prio], p)|
    requires t in v.rec && t != p
    ensures Place(v, p, x, r, i).In(a, t) <==> v.In(a, t)
  {
    var k := v.rec[t].prio;
    if 0 <= k < MAX_PRIO {
      assert Cell(v.q[a][k], a, k, v.rec);
      CellErase(v.q[a][k], a, k, v.rec, p, x);
      var q := Remove(v.q[a][k], p);
      assert Place(v, p, x, r, i).q[a][k] == if a == r && k == x.prio then Insert(q, i, p) else q;
      if a == r && k == x.prio { InsertHas(q, i, p, t); }
    }
  }

  lemma PlaceCurr(v: View, p: Tid, x: Rec, r: Role, i: nat)
    requires v.Inv() && v.CurrQueued() && p != v.idle && RecOk(x) && Fits(r, x)
    requires i <= |Remove(v.q[r][x.prio], p)|
    ensures Place(v, p, x, r, i).Inv() && Place(v, p, x, r, i).CurrQueued()
  {
    PlaceInv(v, p, x, r, i);
    if v.curr != p && v.curr != v.idle {
      PlaceOthers(v, p, x, r, i, v.RoleOf(v.curr), v.curr);
    }
  }

  lemma InsertHas(q: seq<Tid>, i: nat, p: Tid, t: Tid)
    requires i <= |q| && t != p
    ensures t in Insert(q, i, p) <==> t in q
  {
    if t in q {
      var j :| 0 <= j < |q| && q[j] == t;
      assert Insert(q, i, p)[if j < i then j else j + 1] == t;
    }
  }

  lemma TailKeeps(v: View, p: Tid, x: Rec, r: Role)
    requires v.Inv() && v.CurrQueued() && p != v.idle && RecOk(x) && Fits(r, x)
    ensures ToTail(v, p, x, r).Inv() && ToTail(v, p, x, r).CurrQueued() && ToTail(v, p, x, r).In(r, p)
  {
    var i := |Remove(v.q[r][x.prio], p)|;
    PlaceInv(v, p, x, r, i);
    PlaceCurr(v, p, x, r, i);
  }

  /** Activating a task that has just been given the fields x. */
  lemma ActivateAs(v: View, p: Tid, x: Rec, hz: Hz, slept: nat)
    requires v.Inv() && v.CurrQueued() && p in v.rec && p != v.idle && RecOk(x)
    ensures var w := Activate(SetRec(v, p, x), p, hz, slept);
            && w == ToTail(v, p, ActivateRec(x, hz, slept), Home(x))
            && w.Inv() && w.CurrQueued() && w.Queued(p) && w.curr == v.curr && w.idle == v.idle
            && w.rec == v.rec[p := ActivateRec(x, hz, slept)]
  {
    var y := ActivateRec(x, hz, slept);
    TailKeeps(v, p, y, Home(x));
    ToTailOver(v, p, x, y, Home(x));
  }

  lemma ToTailOver(v: View, p: Tid, x: Rec, y: Rec, r: Role)
    requires v.Shaped() && 0 <= y.prio < MAX_PRIO
    ensures ToTail(SetRec(v, p, x), p, y, r) == ToTail(v, p, y, r)
  {
    assert SetRec(SetRec(v, p, x), p, y) == SetRec(v, p, y);
  }

  lemma ReschedKeeps(v: View)
    requires v.Inv() && v.CurrQueued()
    ensures Resched(v).Inv() && Resched(v).CurrQueued()
    ensures forall t :: t in v.rec ==>
              (Resched(v).Queued(t) <==> v.Queued(t)) && Resched(v).rec[t].state == v.rec[t].state
  {
    SetRecInv(v, v.curr, v.rec[v.curr].(needResched := true));
  }

  lemma WakeKeeps(v: View, p: Tid, hz: Hz, slept: nat)
    requires v.Inv() && v.CurrQueued() && p in v.rec && p != v.idle
    ensures var w := TryToWakeUp(v, p, hz, slept);
            w.Inv() && w.CurrQueued() && w.Queued(p) && w.rec[p].state.Running?
  {
    hide View.Inv, ToTail;
    RecAt(v, p);
    var x := v.rec[p].(state := Running);
    if v.Queued(p) {
      SetRecInv(v, p, x);
    } else {
      ActivateAs(v, p, x, hz, slept);
      ReschedKeeps(Activate(SetRec(v, p, x), p, hz, slept));
    }
  }

  lemma HeadQueued(v: View, r: Role)
    requires v.Inv() && !Vacant(v.q[r])
    ensures Head(v.q[r]) in v.rec && v.In(r, Head(v.q[r])) && Head(v.q[r]) != v.idle
    ensures v.rec[Head(v.q[r])].prio == First(v.q[r])
  {
    QueuedHome(v, r, First(v.q[r]), Head(v.q[r]));
  }

  lemma SwitchKeeps(v: View)
    requires v.Inv()
    ensures SwitchArrays(v).Inv()
  {
    var w := SwitchArrays(v);
    if w != v {
      forall k | 0 <= k < MAX_PRIO
        ensures v.q[ACTIVE][k] == [] && Cell(w.q[EXPIRED][k], EXPIRED, k, w.rec)
        ensures Cell(w.q[ACTIVE][k], ACTIVE, k, w.rec)
      {
        assert Cell(v.q[EXPIRED][k], EXPIRED, k, v.rec);
        ExpiredMayRun(v.q[EXPIRED][k], k, v.rec);
      }
      assert forall k :: 0 <= k < MAX_PRIO ==> w.q[EXPIRED][k] == [];
      forall k | 0 <= k < MAX_PRIO ensures Apart(w.q[ACTIVE][k], w.q[EXPIRED][k]) {
        ApartIff(w.q[ACTIVE][k], w.q[EXPIRED][k]);
      }
    }
  }

  lemma {:induction false} ExpiredMayRun(q: seq<Tid>, k: int, rec: map<Tid, Rec>)
    requires Placed(q, EXPIRED, k, rec)
    ensures Placed(q, ACTIVE, k, rec)
  {
    if q != [] { ExpiredMayRun(q[1..], k, rec); }
  }

  /** schedule() always finds a queued task, or the idle task when nothing is queued. */
  lemma PickQueued(v: View)
    requires v.Inv()
    ensures var w := SwitchArrays(v);
            && w.Inv()
            && (Empty(v) ==> Pick(w) == v.idle)
            && (!Empty(v) ==> Pick(w) != v.idle && Pick(w) in w.rec && w.Queued(Pick(w)))
  {
    var w := SwitchArrays(v);
    SwitchKeeps(v);
    forall r: Role | !Vacant(w.q[r]) ensures Head(w.q[r]) in w.rec && w.In(r, Head(w.q[r])) && Head(w.q[r]) != w.idle {
      HeadQueued(w, r);
    }
  }

  lemma LeaveKeeps(v: View, signalPending: bool)
    requires v.Inv()
    ensures Leave(v, signalPending).Inv()
    ensures Leave(v, signalPending).rec.Keys == v.rec.Keys && Leave(v, signalPending).curr == v.curr
  {
    var x := v.rec[v.curr];
    if x.state.Interruptible? && signalPending {
      SetRecInv(v, v.curr, x.(state := Running));
    } else if !x.state.Running? {
      EraseInv(v, v.curr, x);
      assert SetRec(v, v.curr, x) == v;
    }
  }

  /** Which task is running does not matter to the class invariants. */
  lemma CurrInv(v: View, next: Tid)
    requires v.Inv() && next in v.rec
    ensures v.(curr := next).Inv()
    ensures forall t :: t in v.rec ==> (v.(curr := next).Queued(t) <==> v.Queued(t))
  {
  }

  lemma InvShaped(v: View)
    requires v.Inv()
    ensures v.Shaped()
  {
  }

  lemma RecAt(v: View, p: Tid)
    requires v.Inv() && p in v.rec
    ensures v.Shaped() && (p != v.idle ==> RecOk(v.rec[p]))
    ensures p == v.idle ==> v.rec[p].prio == MAX_PRIO && v.rec[p].policy.Other? && v.rec[p].state.Running?
    ensures v.Queued(p) ==> Fits(v.RoleOf(p), v.rec[p]) && p != v.idle
  {
    if v.Queued(p) { QueuedHome(v, v.RoleOf(p), v.rec[p].prio, p); }
  }

  lemma ScheduleKeeps(v: View, signalPending: bool)
    requires v.Inv()
    ensures var w := Schedule(v, signalPending);
            w.Inv() && w.CurrQueued() && w.rec.Keys == v.rec.Keys
  {
    hide View.Inv, Pick, Empty, RecOk;
    InvShaped(v);
    LeaveKeeps(v, signalPending);
    var u := Leave(v, signalPending);
    PickQueued(u);
    var w := SwitchArrays(u);
    var x := w.rec[v.curr].(needResched := false);
    RecAt(w, v.curr);
    SameRecOk(w, v.curr, x);
    SetRecInv(w, v.curr, x);
    CurrInv(SetRec(w, v.curr, x), Pick(w));
    assert w.Queued(Pick(w)) ==> SetRec(w, v.curr, x).Queued(Pick(w));
  }

  lemma SameRecOk(v: View, p: Tid, x: Rec)
    requires v.Inv() && p in v.rec && SamePlace(v.rec[p], x) && x.staticPrio == v.rec[p].staticPrio
    ensures p != v.idle ==> RecOk(x)
  {
  }

  lemma NiceKeeps(v: View, p: Tid, nice: int)
    requires v.Inv() && v.CurrQueued() && p in v.rec && p != v.idle
    ensures RecOk(v.rec[p]) && var w := SetUserNice(v, p, nice); w.Inv() && w.CurrQueued()
  {
    hide View.Inv, ToTail;
    RecAt(v, p);
    var x := v.rec[p];
    var prio := MAX_RT_PRIO + nice + 20;
    if x.staticPrio == prio || nice < -20 || nice > 19 || x.policy.Short? {
    } else if IsRt(x) {
      SetRecInv(v, p, x.(staticPrio := prio));
    } else if !v.Queued(p) {
      SetRecInv(v, p, x.(staticPrio := prio, prio := prio));
    } else {
      var y, r := x.(staticPrio := prio, prio := prio), v.RoleOf(p);
      TailKeeps(v, p, y, r);
      ReschedKeeps(ToTail(v, p, y, r));
    }
  }

  lemma YieldKeeps(v: View)
    requires v.Inv() && v.curr != v.idle && v.CurrQueued()
    ensures var w := YieldPlace(v); w.Inv() && w.CurrQueued() && w.In(v.RoleOf(v.curr), v.curr)
  {
    var p, x, r := v.curr, v.rec[v.curr], v.RoleOf(v.curr);
    QueuedHome(v, r, x.prio, p);
    var rest := EraseAll(v.q[r], p);
    var j := YieldPrio(rest, x.prio, IsRt(x));
    PlaceInv(v, p, x.(prio := j), r, YieldIndex(rest[j], IsRt(x)));
    PlaceCurr(v, p, x.(prio := j), r, YieldIndex(rest[j], IsRt(x)));
  }

  /** A policy change keeps the invariant. Only the SHORT to SHORT form takes a queued
      task off the runqueue, and it does so always. */
  lemma SetSchedulerKeeps(v: View, p: Tid, q: Request, hz: Hz, slept: nat)
    requires v.Inv() && v.CurrQueued() && p in v.rec && p != v.idle
    ensures SetScheduler(v, p, q, hz, slept).Inv()
    ensures SetScheduler(v, p, q, hz, slept).Queued(p) <==>
              v.Queued(p) && !(Check(v.rec[p], q) == Granted(Short) && v.rec[p].policy.Short?)
    ensures SetScheduler(v, p, q, hz, slept).CurrQueued() <==>
              !(p == v.curr && Check(v.rec[p], q) == Granted(Short) && v.rec[p].policy.Short?)
  {
    var x := v.rec[p];
    if Check(x, q).Granted? {
      var policy := Check(x, q).policy;
      if x.policy.Short? && policy.Short? {
        EraseInv(v, p, x.(requestedTime := q.requestedTime));
        EraseOthers(v, p, x.(requestedTime := q.requestedTime));
      } else {
        RepolicyKeeps(v, p, policy, q, hz, slept);
      }
    }
  }

  lemma EraseOther(v: View, p: Tid, x: Rec, a: Role, t: Tid)
    requires v.Inv() && t in v.rec && t != p
    ensures Erase(SetRec(v, p, x), p).In(a, t) <==> v.In(a, t)
  {
    var k := v.rec[t].prio;
    if 0 <= k < MAX_PRIO {
      assert Cell(v.q[a][k], a, k, v.rec);
      CellErase(v.q[a][k], a, k, v.rec, p, x);
      assert Erase(SetRec(v, p, x), p).q[a][k] == Remove(v.q[a][k], p);
    }
  }

  lemma EraseOthers(v: View, p: Tid, x: Rec)
    requires v.Inv() && p in v.rec
    ensures var w := Erase(SetRec(v, p, x), p); forall t :: t in v.rec && t != p ==> (w.Queued(t) <==> v.Queued(t))
  {
    forall a: Role, t | t in v.rec && t != p { EraseOther(v, p, x, a, t); }
  }

  lemma RepolicyOk(x: Rec, policy: Policy, q: Request, hz: Hz)
    requires RecOk(x) && Check(x, q) == Granted(policy) && !(x.policy.Short? && policy.Short?)
    ensures RecOk(Repolicy(x, policy, q, hz))
  {
  }

  lemma RepolicyKeeps(v: View, p: Tid, policy: Policy, q: Request, hz: Hz, slept: nat)
    requires v.Inv() && v.CurrQueued() && p in v.rec && p != v.idle
    requires Check(v.rec[p], q) == Granted(policy) && !(v.rec[p].policy.Short? && policy.Short?)
    ensures SetScheduler(v, p, q, hz, slept).Inv()
    ensures SetScheduler(v, p, q, hz, slept).Queued(p) <==> v.Queued(p)
    ensures SetScheduler(v, p, q, hz, slept).CurrQueued()
  {
    var y := Repolicy(v.rec[p], policy, q, hz);
    RepolicyOk(v.rec[p], policy, q, hz);
    if v.Queued(p) {
      ActivateAs(v, p, y, hz, slept);
      ReschedKeeps(Activate(SetRec(v, p, y), p, hz, slept));
    } else {
      SetRecInv(v, p, y);
      ReschedKeeps(SetRec(v, p, y));
    }
  }

  /** A tick moves no task but the running one. */
  lemma TickOthers(v: View, hz: Hz, toExpired: bool, t: Tid)
    requires v.Inv() && v.CurrQueued() && t in v.rec && t != v.curr
    ensures t in Tick(v, hz, toExpired).rec && Tick(v, hz, toExpired).rec[t] == v.rec[t]
    ensures var w := Tick(v, hz, toExpired); w.Shaped() && (w.Queued(t) <==> v.Queued(t))
  {
    if v.curr != v.idle {
      var out := TickRec(v.rec[v.curr], hz, v.In(ACTIVE, v.curr), toExpired);
      TickRecOk(v.rec[v.curr], hz, v.In(ACTIVE, v.curr), toExpired);
      if out.move.Tail? {
        var i := |Remove(v.q[out.move.role][out.rec.prio], v.curr)|;
        forall a: Role {
          PlaceOthers(v, v.curr, out.rec, out.move.role, i, a, t);
        }
      }
    }
  }

  lemma ForkKeeps(v: View, child: Tid, hz: Hz, toExpired: bool, parentSlept: nat, childSlept: nat)
    requires v.Inv() && v.curr != v.idle && v.CurrQueued() && child !in v.rec
    ensures var w := Fork(v, child, hz, toExpired, parentSlept, childSlept);
            w.Inv() && w.CurrQueued() && child in w.rec && w.Queued(child)
  {
    SplitKeeps(v, child, hz, toExpired);
    WakeForkedKeeps(AfterSplit(v, child, hz, toExpired), child, hz, parentSlept, childSlept);
  }

  lemma SplitKeeps(v: View, child: Tid, hz: Hz, toExpired: bool)
    requires v.Inv() && v.curr != v.idle && v.CurrQueued() && child !in v.rec
    ensures var w := AfterSplit(v, child, hz, toExpired);
            w.Inv() && w.CurrQueued() && w.idle == v.idle && !w.Queued(child)
  {
    var u := SplitView(v, child);
    SetRecInv(v, v.curr, u.rec[v.curr]);
    SetRecInv(SetRec(v, v.curr, u.rec[v.curr]), child, u.rec[child]);
    TickKeeps(u, hz, toExpired);
    TickOthers(u, hz, toExpired, child);
  }

  lemma WakeForkedKeeps(v: View, child: Tid, hz: Hz, parentSlept: nat, childSlept: nat)
    requires v.Inv() && v.CurrQueued() && child in v.rec && child != v.idle && v.curr != v.idle && child != v.curr
    requires !v.Queued(child)
    ensures WakeForked(v, child, hz, parentSlept, childSlept).Inv()
    ensures WakeForked(v, child, hz, parentSlept, childSlept).CurrQueued()
    ensures WakeForked(v, child, hz, parentSlept, childSlept).Queued(child)
  {
    ActivateAs(v, v.curr, v.rec[v.curr], hz, parentSlept);
    assert SetRec(v, v.curr, v.rec[v.curr]) == v;
    var w := if v.rec[child].policy.Short? then Activate(v, v.curr, hz, parentSlept) else v;
    ActivateAs(w, child, ChildRec(w.rec[child], hz), hz, childSlept);
  }

  // ---- tasks that leave and arrive -----------------------------------------------------------

  lemma MovableFits(v: View, p: Tid)
    requires Movable(v, p)
    ensures v.Shaped() && p in v.rec && v.Queued(p) && RecOk(v.rec[p]) && !v.rec[p].policy.Short?
    ensures p != v.idle && p != v.curr && Erase(v, p).Shaped()
    ensures Erase(v, p).rec == v.rec && Erase(v, p).curr == v.curr && Erase(v, p).idle == v.idle
    ensures Give(v, p) == Erase(v, p).(rec := v.rec - {p})
  {
    var r := if v.In(ACTIVE, p) then ACTIVE else EXPIRED;
    QueuedHome(v, r, v.rec[p].prio, p);
  }

  lemma {:induction false} PlacedLess(q: seq<Tid>, r: Role, k: int, rec: map<Tid, Rec>, p: Tid)
    requires Placed(q, r, k, rec) && p !in q
    ensures Placed(q, r, k, rec - {p})
  {
    if q != [] { PlacedLess(q[1..], r, k, rec, p); }
  }

  lemma ForgetInv(v: View, p: Tid)
    requires v.Inv() && p in v.rec && !v.Queued(p) && p != v.curr && p != v.idle
    ensures v.(rec := v.rec - {p}).Inv()
  {
    var w := v.(rec := v.rec - {p});
    forall r, k | 0 <= r < 4 && 0 <= k < MAX_PRIO ensures Cell(w.q[r][k], r, k, w.rec) {
      assert Cell(v.q[r][k], r, k, v.rec);
      if p in v.q[r][k] { QueuedHome(v, r, k, p); }
      PlacedLess(v.q[r][k], r, k, v.rec, p);
    }
  }

  lemma GiveInv(v: View, p: Tid)
    requires v.Inv() && p in v.rec && p != v.curr && p != v.idle
    ensures Give(v, p).Inv()
  {
    EraseInv(v, p, v.rec[p]);
    assert SetRec(v, p, v.rec[p]) == v;
    ForgetInv(Erase(v, p), p);
  }

  /** The balancer takes a waiting task away; the running task stays queued. */
  lemma GiveKeeps(v: View, p: Tid)
    requires Movable(v, p) && v.CurrQueued()
    ensures v.Shaped() && p != v.idle
    ensures Give(v, p).Inv() && Give(v, p).CurrQueued()
    ensures forall t :: t in v.rec && t != p ==>
              t in Give(v, p).rec && Give(v, p).rec[t] == v.rec[t] && (Give(v, p).Queued(t) <==> v.Queued(t))
  {
    hide View.Inv;
    MovableFits(v, p);
    GiveInv(v, p);
    EraseOthers(v, p, v.rec[p]);
    assert SetRec(v, p, v.rec[p]) == v;
    forall t | t in v.rec && t != p ensures Give(v, p).Queued(t) <==> v.Queued(t) {
      LessQueued(Erase(v, p), p, t);
    }
  }

  lemma LessQueued(v: View, p: Tid, t: Tid)
    requires v.Shaped() && t in v.rec && t != p && p != v.curr && p != v.idle
    ensures v.(rec := v.rec - {p}).Shaped() && (v.(rec := v.rec - {p}).Queued(t) <==> v.Queued(t))
  {
    assert forall r: Role :: v.(rec := v.rec - {p}).In(r, t) <==> v.In(r, t);
  }

  /** A waiting task from another processor arrives. */
  lemma TakeKeeps(v: View, p: Tid, x: Rec)
    requires v.Inv() && v.CurrQueued() && p !in v.rec && RecOk(x) && !x.policy.Short?
    ensures Take(v, p, x).Inv() && Take(v, p, x).CurrQueued() && Take(v, p, x).Queued(p)
    ensures p in Take(v, p, x).rec && Take(v, p, x).rec[p].state == x.state
    ensures Take(v, p, x).rec.Keys == v.rec.Keys + {p}
  {
    hide View.Inv, ToTail;
    InvShaped(v);
    TailKeeps(v, p, x, ACTIVE);
    ReschedKeeps(ToTail(v, p, x, ACTIVE));
  }

  /** A dead child is reaped by the running task. */
  lemma ReapKeeps(v: View, child: Tid, hz: Hz)
    requires v.Inv() && v.CurrQueued() && v.curr != v.idle
    requires child in v.rec && !v.Queued(child) && child != v.idle && child != v.curr
    ensures v.Shaped()
    ensures ReapChild(v, child, hz).Inv() && ReapChild(v, child, hz).CurrQueued()
    ensures forall t :: t in v.rec && t != child ==>
              && t in ReapChild(v, child, hz).rec && (ReapChild(v, child, hz).Queued(t) <==> v.Queued(t))
              && (t != v.curr ==> ReapChild(v, child, hz).rec[t] == v.rec[t])
  {
    hide View.Inv, Reap;
    InvShaped(v);
    RecAt(v, v.curr);
    var x := Reap(v.rec[v.curr], v.rec[child], hz);
    ReapPlace(v.rec[v.curr], v.rec[child], hz);
    SetRecInv(v, v.curr, x);
    var w := SetRec(v, v.curr, x);
    forall t | t in v.rec ensures w.Queued(t) <==> v.Queued(t) {
      assert forall r: Role :: w.In(r, t) <==> v.In(r, t);
    }
    ForgetInv(w, child);
    forall t | t in v.rec && t != child ensures ReapChild(v, child, hz).Queued(t) <==> v.Queued(t) {
      LessQueued(w, child, t);
    }
  }

  lemma ReapPlace(x: Rec, y: Rec, hz: Hz)
    requires RecOk(x)
    ensures var z := Reap(x, y, hz);
            RecOk(z) && SamePlace(x, z) && z.state == x.state && z.policy == x.policy && z.overdue == x.overdue
  {
  }
}
