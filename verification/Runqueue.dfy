/** struct runqueue: the O(1) scheduler as it is coded. Four priority arrays are embedded
    in the runqueue; the role pointers `active` and `expired`, and `p->array` in every
    task, point into them, so exchanging the two roles moves no task. */
module RunqueueModel {
  import opened Lists
  import opened TaskModel
  import opened Entities
  import opened SchedSpec
  import opened SchedInvariant
  import SchedPick

  /** The embedded array that plays a role now. */
  function Slot(active: nat, r: Role): (i: nat)
    requires active < 2
    ensures i < 4
  {
    if r == ACTIVE then active else if r == EXPIRED then 1 - active else r
  }

  /** `p->array` as it must be: the array the task is queued in, or NULL. */
  function BackPointer(v: View, active: nat, t: Tid): Option<nat>
    requires v.Shaped() && active < 2 && t in v.rec
  {
    if v.Queued(t) then Some(Slot(active, v.RoleOf(t))) else None
  }

  /** Every task but p still points where it did. */
  ghost predicate SameBack(v: View, w: View, active: nat, p: Tid)
    requires v.Shaped() && w.Shaped() && active < 2
  {
    forall t :: t in v.rec && t in w.rec && t != p ==> BackPointer(w, active, t) == BackPointer(v, active, t)
  }

  function NrActive(arrays: seq<PrioArray>): int
    requires |arrays| == 4
  {
    arrays[0].nrActive + arrays[1].nrActive + arrays[2].nrActive + arrays[3].nrActive
  }

  /** The arrays, their bitmaps and counters and the counter of the runqueue agree with
      the lists q, given by role. */
  ghost predicate Agree(q: seq<Queues>, arrays: seq<PrioArray>, active: nat, nrRunning: int) {
    && active < 2 && |arrays| == |q| == 4
    && (forall i :: 0 <= i < 4 ==> arrays[i].Indexed())
    && (forall r: Role :: q[r] == arrays[Slot(active, r)].queue)
    && nrRunning == NrActive(arrays)
  }

  /** ... and the lists keep the class invariants. */
  ghost predicate Sound(v: View, arrays: seq<PrioArray>, active: nat, nrRunning: int) {
    v.Inv() && Agree(v.q, arrays, active, nrRunning)
  }

  /** The lists after dequeue_task has unlinked p from its one list. */
  function Unlinked(v: View, p: Tid): seq<Queues>
    requires v.Shaped() && p in v.rec
  {
    if !v.Queued(p) then v.q
    else
      var r, k := v.RoleOf(p), v.rec[p].prio;
      v.q[r := v.q[r][k := Remove(v.q[r][k], p)]]
  }

  /** Unlinking a task from its one list erases it everywhere. */
  lemma EraseExact(v: View, p: Tid)
    requires v.Inv() && p in v.rec
    ensures Erase(v, p).q == Unlinked(v, p)
  {
    forall r, k | 0 <= r < 4 && 0 <= k < MAX_PRIO
      ensures EraseAll(v.q[r], p)[k] == Unlinked(v, p)[r][k]
    {
      if p in v.q[r][k] {
        QueuedHome(v, r, k, p);
        OneRole(v, r, v.RoleOf(p), p);
      }
    }
    forall r | 0 <= r < 4 ensures Erase(v, p).q[r] == Unlinked(v, p)[r] {
      assert EraseAll(v.q[r], p) == Unlinked(v, p)[r];
    }
  }

  /** Queueing at the tail, as enqueue_task does it. */
  function Appended(q: seq<Queues>, r: Role, k: int, p: Tid): seq<Queues>
    requires |q| == 4 && 0 <= k < |q[r]|
  {
    q[r := q[r][k := q[r][k] + [p]]]
  }

  lemma PlaceExact(v: View, p: Tid, x: Rec, r: Role, i: nat)
    requires v.Inv() && p in v.rec && 0 <= x.prio < MAX_PRIO && i <= |Remove(v.q[r][x.prio], p)|
    ensures var e := Erase(v, p).q;
            && |e| == 4 && |e[r]| == MAX_PRIO && e[r][x.prio] == Remove(v.q[r][x.prio], p)
            && Place(v, p, x, r, i).q == e[r := InsertAt(e[r], x.prio, i, p)]
  {
    hide View.Inv, Remove, EraseAll, Erase, InsertAt;
    InvShaped(v);
    EraseAt(v, p, x, r, x.prio);
  }

  lemma EraseAt(v: View, p: Tid, x: Rec, r: Role, k: nat)
    requires v.Shaped() && k < MAX_PRIO
    ensures Erase(SetRec(v, p, x), p).q == Erase(v, p).q
    ensures var e := Erase(v, p).q; |e| == 4 && |e[r]| == MAX_PRIO && e[r][k] == Remove(v.q[r][k], p)
  {
    hide Remove;
  }

  lemma ToTailExact(v: View, p: Tid, x: Rec, r: Role)
    requires v.Inv() && p in v.rec && 0 <= x.prio < MAX_PRIO
    ensures |Unlinked(v, p)| == 4 && |Unlinked(v, p)[r]| == MAX_PRIO
    ensures ToTail(v, p, x, r).q == Appended(Unlinked(v, p), r, x.prio, p)
  {
    var q := Remove(v.q[r][x.prio], p);
    PlaceExact(v, p, x, r, |q|);
    EraseExact(v, p);
    assert Insert(q, |q|, p) == q + [p];
  }

  lemma AgreeDequeue(q: seq<Queues>, arrays: seq<PrioArray>, active: nat, nr: int, r: Role, p: Tid, k: int)
    requires Agree(q, arrays, active, nr) && 0 <= k < |q[r]| && p in q[r][k]
    ensures var i := Slot(active, r);
            && Holds(arrays, i, p, k)
            && Agree(q[r := q[r][k := Remove(q[r][k], p)]], Dequeue(arrays, i, p, k), active, nr - 1)
  {
    DequeuedIndexed(arrays[Slot(active, r)], p, k);
  }

  lemma AgreeEnqueue(q: seq<Queues>, arrays: seq<PrioArray>, active: nat, nr: int, r: Role, p: Tid, k: int)
    requires Agree(q, arrays, active, nr) && 0 <= k < |q[r]|
    ensures var i := Slot(active, r);
            && Accepts(arrays, i, k)
            && Agree(Appended(q, r, k, p), Enqueue(arrays, i, p, k), active, nr + 1)
  {
    EnqueuedIndexed(arrays[Slot(active, r)], p, k);
  }

  /** Array i holds task p at priority k. */
  ghost predicate Holds(arrays: seq<PrioArray>, i: nat, p: Tid, k: int) {
    i < |arrays| && arrays[i].Indexed() && 0 <= k < MAX_PRIO && p in arrays[i].queue[k]
  }

  /** Array i may take a task at priority k. */
  ghost predicate Accepts(arrays: seq<PrioArray>, i: nat, k: int) {
    i < |arrays| && arrays[i].Indexed() && 0 <= k < MAX_PRIO
  }

  /** dequeue_task on the embedded arrays. */
  function Dequeue(arrays: seq<PrioArray>, i: nat, p: Tid, k: int): seq<PrioArray>
    requires Holds(arrays, i, p, k)
  {
    arrays[i := Dequeued(arrays[i], p, k)]
  }

  /** enqueue_task on the embedded arrays. */
  function Enqueue(arrays: seq<PrioArray>, i: nat, p: Tid, k: int): seq<PrioArray>
    requires Accepts(arrays, i, k)
  {
    arrays[i := Enqueued(arrays[i], p, k)]
  }

  /** Where a queued task is found. */
  lemma Located(v: View, arrays: seq<PrioArray>, active: nat, nr: int, p: Tid)
    requires Sound(v, arrays, active, nr) && p in v.rec
    ensures v.Shaped() && active < 2
    ensures BackPointer(v, active, p) == if v.Queued(p) then Some(Slot(active, v.RoleOf(p))) else None
    ensures v.Queued(p) ==>
              && p != v.idle && Fits(v.RoleOf(p), v.rec[p])
              && Holds(arrays, Slot(active, v.RoleOf(p)), p, v.rec[p].prio)
    ensures p != v.idle ==> RecOk(v.rec[p])
    ensures BackPointer(v, active, p) == Some(active) <==> v.In(ACTIVE, p)
  {
    if v.Queued(p) {
      QueuedHome(v, v.RoleOf(p), v.rec[p].prio, p);
    }
  }

  /** deactivate_task on the arrays. */
  lemma SoundErase(v: View, arrays: seq<PrioArray>, active: nat, nr: int, p: Tid)
    requires Sound(v, arrays, active, nr) && p in v.rec && v.Queued(p)
    ensures var i, k, w := Slot(active, v.RoleOf(p)), v.rec[p].prio, Erase(v, p);
            && Holds(arrays, i, p, k) && Sound(w, Dequeue(arrays, i, p, k), active, nr - 1)
            && SameBack(v, w, active, p) && BackPointer(w, active, p) == None
            && w.curr == v.curr && w.idle == v.idle && w.rec == v.rec
  {
    EraseExact(v, p);
    EraseInv(v, p, v.rec[p]);
    assert SetRec(v, p, v.rec[p]) == v;
    AgreeDequeue(v.q, arrays, active, nr, v.RoleOf(p), p, v.rec[p].prio);
    EraseBack(v, active, p);
  }

  /** enqueue_task of a task that is off the queues, on the arrays. */
  lemma SoundEnqueue(v: View, arrays: seq<PrioArray>, active: nat, nr: int, p: Tid, x: Rec, r: Role)
    requires Sound(v, arrays, active, nr) && p in v.rec && !v.Queued(p) && p != v.idle && RecOk(x) && Fits(r, x)
    ensures var w, j := ToTail(v, p, x, r), Slot(active, r);
            && Accepts(arrays, j, x.prio) && Sound(w, Enqueue(arrays, j, p, x.prio), active, nr + 1)
            && SameBack(v, w, active, p) && BackPointer(w, active, p) == Some(j)
            && w.curr == v.curr && w.idle == v.idle && w.rec == v.rec[p := x]
  {
    AgreeEnqueue(v.q, arrays, active, nr, r, p, x.prio);
    ToTailExact(v, p, x, r);
    PlaceInv(v, p, x, r, |Remove(v.q[r][x.prio], p)|);
    PlaceBack(v, active, p, x, r, |Remove(v.q[r][x.prio], p)|);
  }

  /** dequeue_task and enqueue_task of a queued task, on the arrays. */
  lemma SoundToTail(v: View, arrays: seq<PrioArray>, active: nat, nr: int, p: Tid, x: Rec, r: Role)
    requires Sound(v, arrays, active, nr) && p in v.rec && v.Queued(p) && p != v.idle && RecOk(x) && Fits(r, x)
    ensures var w, i, j, k := ToTail(v, p, x, r), Slot(active, v.RoleOf(p)), Slot(active, r), v.rec[p].prio;
            && Holds(arrays, i, p, k) && Accepts(Dequeue(arrays, i, p, k), j, x.prio)
            && Sound(w, Enqueue(Dequeue(arrays, i, p, k), j, p, x.prio), active, nr)
            && SameBack(v, w, active, p) && BackPointer(w, active, p) == Some(j)
            && w.curr == v.curr && w.idle == v.idle && w.rec == v.rec[p := x]
  {
    var i, k := Slot(active, v.RoleOf(p)), v.rec[p].prio;
    AgreeDequeue(v.q, arrays, active, nr, v.RoleOf(p), p, k);
    AgreeEnqueue(Unlinked(v, p), Dequeue(arrays, i, p, k), active, nr - 1, r, p, x.prio);
    ToTailExact(v, p, x, r);
    PlaceInv(v, p, x, r, |Remove(v.q[r][x.prio], p)|);
    PlaceBack(v, active, p, x, r, |Remove(v.q[r][x.prio], p)|);
  }

  lemma ActivateRecOk(x: Rec, hz: Hz, slept: nat)
    requires RecOk(x)
    ensures RecOk(ActivateRec(x, hz, slept)) && Fits(Home(x), ActivateRec(x, hz, slept))
  {
  }

  lemma IdleAt(v: View, arrays: seq<PrioArray>, active: nat, nr: int, p: Tid)
    requires Sound(v, arrays, active, nr) && p in v.rec
    ensures v.Shaped() && v.idle in v.rec
    ensures p == v.idle ==> v.rec[p].state.Running? && !v.Queued(p)
  {
    if v.Queued(p) { QueuedHome(v, v.RoleOf(p), v.rec[p].prio, p); }
  }

  lemma KeepsPlace(v: View, arrays: seq<PrioArray>, active: nat, nr: int, p: Tid, x: Rec)
    requires Sound(v, arrays, active, nr) && p in v.rec
    requires SamePlace(v.rec[p], x) && v.rec[p].staticPrio == x.staticPrio
    requires p != v.idle || x.state == v.rec[p].state
    ensures v.Shaped() && MayRewrite(v, p, x)
  {
  }

  lemma WokenOk(v: View, arrays: seq<PrioArray>, active: nat, nr: int, p: Tid)
    requires Sound(v, arrays, active, nr) && p in v.rec && p != v.idle
    ensures v.Shaped() && MayRewrite(v, p, v.rec[p].(state := Running))
    ensures SetRec(v, p, v.rec[p].(state := Running)).Shaped()
    ensures SetRec(v, p, v.rec[p].(state := Running)).Queued(p) == v.Queued(p)
    ensures RecOk(v.rec[p]) && RecOk(v.rec[p].(state := Running))
  {
  }

  lemma ChargeOk(v: View, arrays: seq<PrioArray>, active: nat, nr: int, hz: Hz, toExpired: bool)
    requires Sound(v, arrays, active, nr) && v.curr != v.idle
    ensures v.Shaped() && RecOk(v.rec[v.curr])
    ensures var out := TickRec(v.rec[v.curr], hz, v.In(ACTIVE, v.curr), toExpired);
            && RecOk(out.rec) && (out.move.Tail? ==> Fits(out.move.role, out.rec))
            && (out.move.Stay? ==> MayRewrite(v, v.curr, out.rec))
  {
    TickRecOk(v.rec[v.curr], hz, v.In(ACTIVE, v.curr), toExpired);
  }

  lemma NiceOk(v: View, arrays: seq<PrioArray>, active: nat, nr: int, p: Tid, prio: int)
    requires Sound(v, arrays, active, nr) && p in v.rec && p != v.idle && !v.rec[p].policy.Short?
    requires MAX_RT_PRIO <= prio < MAX_PRIO
    ensures v.Shaped() && active < 2
    ensures IsRt(v.rec[p]) ==> MayRewrite(v, p, v.rec[p].(staticPrio := prio))
    ensures var x := v.rec[p].(staticPrio := prio, prio := prio);
            !IsRt(v.rec[p]) ==>
              && RecOk(x) && (!v.Queued(p) ==> MayRewrite(v, p, x))
              && (v.Queued(p) ==> Fits(v.RoleOf(p), x) && Slot(active, Slot(active, v.RoleOf(p))) == v.RoleOf(p))
  {
    if v.Queued(p) { QueuedHome(v, v.RoleOf(p), v.rec[p].prio, p); }
  }

  /** Queueing again erases again, so an earlier erasure makes no difference. */
  lemma ToTailErased(v: View, p: Tid, y: Rec, x: Rec, r: Role)
    requires v.Inv() && p in v.rec && 0 <= x.prio < MAX_PRIO
    ensures Erase(v, p).Shaped()
    ensures ToTail(SetRec(Erase(v, p), p, y), p, x, r) == ToTail(SetRec(v, p, y), p, x, r)
  {
    forall a, k | 0 <= a < 4 && 0 <= k < MAX_PRIO
      ensures Remove(Remove(v.q[a][k], p), p) == Remove(v.q[a][k], p)
    {
      assert Cell(v.q[a][k], a, k, v.rec);
      RemoveMembers(v.q[a][k], p);
    }
    var e := Erase(v, p);
    forall a | 0 <= a < 4 ensures EraseAll(e.q[a], p) == EraseAll(v.q[a], p) {
    }
  }

  /** A granted policy change: the task is off the queues when its fields change. */
  lemma RepolicyPlaces(v: View, arrays: seq<PrioArray>, active: nat, nr: int, p: Tid, x: Rec, hz: Hz, slept: nat)
    requires Sound(v, arrays, active, nr) && p in v.rec && p != v.idle && RecOk(x)
    ensures v.Shaped() && RecOk(v.rec[p])
    ensures var e := Erase(v, p);
            && (!v.Queued(p) ==> e == v)
            && e.Shaped() && p in e.rec && e.rec == v.rec && MayRewrite(e, p, x) && !SetRec(e, p, x).Queued(p)
            && Activate(SetRec(e, p, x), p, hz, slept) == Activate(SetRec(v, p, x), p, hz, slept)
  {
    hide View.Inv, ActivateRec, ToTail, Agree, View.RoleOf, Home;
    RecAt(v, p);
    ActivateRecOk(x, hz, slept);
    var e := Erase(v, p);
    EraseInv(v, p, v.rec[p]);
    EraseExact(v, p);
    assert SetRec(v, p, v.rec[p]) == v;
    SetRecInv(e, p, x);
    ToTailErased(v, p, x, ActivateRec(x, hz, slept), Home(x));
  }

  lemma RefusedIsIdentity(v: View, p: Tid, q: Request, hz: Hz, slept: nat)
    requires v.Shaped() && p in v.rec && RecOk(v.rec[p]) && Check(v.rec[p], q).Refused?
    ensures SetScheduler(v, p, q, hz, slept) == v
  {
  }

  /** A policy change does not queue a task that is off the queues. */
  lemma StaysOff(v: View, arrays: seq<PrioArray>, active: nat, nr: int, p: Tid, q: Request, hz: Hz, slept: nat)
    requires Sound(v, arrays, active, nr) && p in v.rec && p != v.idle
    ensures v.Shaped() && RecOk(v.rec[p])
    ensures !v.Queued(p) && v.rec[p].policy.Other? && Check(v.rec[p], q) == Granted(Short) ==>
              SetScheduler(v, p, q, hz, slept).Shaped() && p in SetScheduler(v, p, q, hz, slept).rec
              && !SetScheduler(v, p, q, hz, slept).Queued(p)
  {
    if !v.Queued(p) && v.rec[p].policy.Other? && Check(v.rec[p], q) == Granted(Short) {
      RepolicyOk(v.rec[p], Short, q, hz);
      SetRecInv(v, p, Repolicy(v.rec[p], Short, q, hz));
    }
  }

  /** The fields after a granted request. */
  function Requested(x: Rec, policy: Policy, q: Request, hz: Hz): Rec {
    if x.policy.Short? && policy.Short? then x.(requestedTime := q.requestedTime) else Repolicy(x, policy, q, hz)
  }

  lemma RequestedOk(v: View, arrays: seq<PrioArray>, active: nat, nr: int, p: Tid, policy: Policy, q: Request, hz: Hz)
    requires Sound(v, arrays, active, nr) && p in v.rec && p != v.idle && Check(v.rec[p], q) == Granted(policy)
    ensures RecOk(Requested(v.rec[p], policy, q, hz))
  {
    if !(v.rec[p].policy.Short? && policy.Short?) {
      RepolicyOk(v.rec[p], policy, q, hz);
    }
  }

  /** The indexes of one array find what a search of its lists would find. */
  lemma FirstBitFinds(a: PrioArray)
    requires a.Indexed()
    ensures FirstBit(a.bitmap, 0) == First(a.queue)
    ensures a.nrActive >= 0 && (a.nrActive == 0 <==> Vacant(a.queue))
  {
    TotalPositive(a.queue);
    var i, j := FirstBit(a.bitmap, 0), First(a.queue);
    assert !(i < j) && !(j < i);
  }

  /** The array of a role, its list family, its first bit and its counter. */
  lemma RoleIndex(v: View, arrays: seq<PrioArray>, active: nat, nr: int, r: Role)
    requires Sound(v, arrays, active, nr)
    ensures v.Shaped() && active < 2 && |arrays| == 4
    ensures var a := arrays[Slot(active, r)];
            && a.queue == v.q[r] && |a.queue| == MAX_PRIO && |a.bitmap| == MAX_PRIO + 1 && a.bitmap[MAX_PRIO]
            && FirstBit(a.bitmap, 0) == First(v.q[r]) && a.nrActive >= 0 && (a.nrActive > 0 <==> !Vacant(v.q[r]))
  {
    FirstBitFinds(arrays[Slot(active, r)]);
  }

  /** The counter of the runqueue is zero exactly when no list holds a task. */
  lemma CountsTasks(v: View, arrays: seq<PrioArray>, active: nat, nr: int)
    requires Sound(v, arrays, active, nr)
    ensures v.Shaped() && (nr == 0 <==> Empty(v))
  {
    hide View.Inv, View.Shaped, PrioArray.Indexed, Vacant, FirstBit, First;
    RoleIndex(v, arrays, active, nr, ACTIVE);
    RoleIndex(v, arrays, active, nr, EXPIRED);
    RoleIndex(v, arrays, active, nr, SHORT_Q);
    RoleIndex(v, arrays, active, nr, OVERDUE_Q);
  }

  lemma SoundPick(v: View, arrays: seq<PrioArray>, active: nat, nr: int)
    requires Sound(v, arrays, active, nr) && !Empty(v)
    ensures Pick(SwitchArrays(v)) != v.idle && Pick(SwitchArrays(v)) in v.rec
    ensures SchedPick.IsLeast(v, Pick(SwitchArrays(v)))
  {
    PickQueued(v);
    SchedPick.PickIsLeast(v);
  }

  lemma EmptyPick(v: View)
    requires v.Shaped() && Empty(v)
    ensures SwitchArrays(v) == v && Pick(v) == v.idle
  {
  }

  lemma SoundCurr(v: View, arrays: seq<PrioArray>, active: nat, nr: int, next: Tid)
    requires Sound(v, arrays, active, nr) && next in v.rec
    ensures Sound(v.(curr := next), arrays, active, nr)
    ensures v.Shaped() && active < 2
    ensures forall t :: t in v.rec ==> BackPointer(v.(curr := next), active, t) == BackPointer(v, active, t)
  {
    var w := v.(curr := next);
    forall t | t in v.rec ensures BackPointer(w, active, t) == BackPointer(v, active, t) {
      assert forall r: Role :: w.In(r, t) == v.In(r, t);
    }
  }

  /** Exchanging the two roles: every back pointer stays what it is. */
  lemma SoundSwitch(v: View, arrays: seq<PrioArray>, active: nat, nr: int)
    requires Sound(v, arrays, active, nr) && Vacant(v.q[ACTIVE]) && !Empty(v)
    ensures var w := SwitchArrays(v);
            && Sound(w, arrays, 1 - active, nr) && w.rec == v.rec && w.curr == v.curr && w.idle == v.idle
            && forall t :: t in v.rec ==> BackPointer(w, 1 - active, t) == BackPointer(v, active, t)
  {
    hide View.Inv, PrioArray.Indexed;
    SwitchKeeps(v);
    InvShaped(v);
    var w := SwitchArrays(v);
    forall t | t in v.rec ensures BackPointer(w, 1 - active, t) == BackPointer(v, active, t) {
      assert w.In(ACTIVE, t) <==> v.In(EXPIRED, t);
      assert !v.In(ACTIVE, t) && !w.In(EXPIRED, t);
    }
  }

  lemma PlaceBack(v: View, active: nat, p: Tid, x: Rec, r: Role, i: nat)
    requires v.Inv() && active < 2 && p in v.rec && p != v.idle && RecOk(x) && Fits(r, x)
    requires i <= |Remove(v.q[r][x.prio], p)|
    ensures var w := Place(v, p, x, r, i);
            SameBack(v, w, active, p) && BackPointer(w, active, p) == Some(Slot(active, r))
  {
    PlaceInv(v, p, x, r, i);
    var w := Place(v, p, x, r, i);
    OneRole(w, r, w.RoleOf(p), p);
    forall t | t in v.rec && t != p ensures BackPointer(w, active, t) == BackPointer(v, active, t) {
      forall a: Role { PlaceOthers(v, p, x, r, i, a, t); }
    }
  }

  /** Rewriting fields that do not decide the place of a queued task. */
  predicate MayRewrite(v: View, p: Tid, x: Rec)
    requires v.Shaped() && p in v.rec
  {
    && (p != v.idle ==> RecOk(x))
    && (p == v.idle ==> x.state.Running?)
    && (p == v.idle || v.Queued(p) ==> SamePlace(v.rec[p], x))
  }

  lemma SoundSetRec(v: View, arrays: seq<PrioArray>, active: nat, nr: int, p: Tid, x: Rec)
    requires Sound(v, arrays, active, nr) && p in v.rec && MayRewrite(v, p, x)
    ensures var w := SetRec(v, p, x);
            && Sound(w, arrays, active, nr)
            && SameBack(v, w, active, p) && BackPointer(w, active, p) == BackPointer(v, active, p)
  {
    SetRecInv(v, p, x);
    SetRecBack(v, active, p, x);
  }

  lemma OffStaysOff(v: View, arrays: seq<PrioArray>, active: nat, nr: int, p: Tid, x: Rec)
    requires Sound(v, arrays, active, nr) && p in v.rec && p != v.idle && MayRewrite(v, p, x) && !v.Queued(p)
    ensures v.Shaped() && SetRec(v, p, x).Shaped() && !SetRec(v, p, x).Queued(p)
  {
    SetRecInv(v, p, x);
  }

  lemma SetRecBack(v: View, active: nat, p: Tid, x: Rec)
    requires v.Shaped() && active < 2 && p in v.rec
    requires v.Queued(p) ==> SamePlace(v.rec[p], x)
    requires !v.Queued(p) ==> !SetRec(v, p, x).Queued(p)
    ensures var w := SetRec(v, p, x);
            SameBack(v, w, active, p) && BackPointer(w, active, p) == BackPointer(v, active, p)
  {
  }

  lemma EraseBack(v: View, active: nat, p: Tid)
    requires v.Inv() && active < 2 && p in v.rec
    ensures SameBack(v, Erase(v, p), active, p)
  {
    var w := Erase(v, p);
    assert SetRec(v, p, v.rec[p]) == v;
    forall t | t in v.rec && t != p ensures BackPointer(w, active, t) == BackPointer(v, active, t) {
      forall a: Role { EraseOther(v, p, v.rec[p], a, t); }
    }
  }

  /** Linking a task in at position i of list k. */
  function Inserted(a: PrioArray, p: Tid, k: nat, i: nat): PrioArray
    requires k < |a.queue| && k < |a.bitmap| && i <= |a.queue[k]|
  {
    PrioArray(a.nrActive + 1, a.bitmap[k := true], InsertAt(a.queue, k, i, p))
  }

  /** The priority at which sys_sched_yield links the task in again, found on the bitmap
      of the array without it. */
  function FindYieldPrio(b: PrioArray, k: nat, rt: bool): (j: nat)
    requires b.Formed() && k < MAX_PRIO
    ensures j < MAX_PRIO
  {
    if rt || b.queue[k] != [] || FirstBit(b.bitmap, 0) == MAX_PRIO || FirstBit(b.bitmap, 0) <= k then k
    else FirstBit(b.bitmap, 0)
  }

  function Yielded(a: PrioArray, p: Tid, k: nat, rt: bool): PrioArray
    requires a.Formed() && k < MAX_PRIO
  {
    var b := Dequeued(a, p, k);
    var j := FindYieldPrio(b, k, rt);
    Inserted(b, p, j, YieldIndex(b.queue[j], rt))
  }

  lemma AgreeReplace(q: seq<Queues>, arrays: seq<PrioArray>, active: nat, nr: int, r: Role, a: PrioArray)
    requires Agree(q, arrays, active, nr) && a.Indexed() && a.nrActive == arrays[Slot(active, r)].nrActive
    ensures Agree(q[r := a.queue], arrays[Slot(active, r) := a], active, nr)
  {
  }

  lemma YieldedIndexed(a: PrioArray, p: Tid, k: nat, rt: bool)
    requires a.Indexed() && k < MAX_PRIO && p in a.queue[k]
    ensures Yielded(a, p, k, rt).Indexed() && Yielded(a, p, k, rt).nrActive == a.nrActive
    ensures FindYieldPrio(Dequeued(a, p, k), k, rt) == YieldPrio(Dequeued(a, p, k).queue, k, rt)
  {
    DequeuedIndexed(a, p, k);
    var b := Dequeued(a, p, k);
    FirstBitFinds(b);
    var j := FindYieldPrio(b, k, rt);
    TotalUpdate(b.queue, j, Insert(b.queue[j], YieldIndex(b.queue[j], rt), p));
  }

  /** The lists of a role without one of its tasks. */
  lemma RestExact(v: View, a: PrioArray, p: Tid)
    requires v.Inv() && p in v.rec && v.Queued(p) && a.Indexed() && a.queue == v.q[v.RoleOf(p)]
    ensures 0 <= v.rec[p].prio < MAX_PRIO && EraseAll(v.q[v.RoleOf(p)], p) == Dequeued(a, p, v.rec[p].prio).queue
  {
    EraseExact(v, p);
    assert Erase(v, p).q[v.RoleOf(p)] == Unlinked(v, p)[v.RoleOf(p)];
  }

  lemma SoundYield(v: View, arrays: seq<PrioArray>, active: nat, nr: int)
    requires Sound(v, arrays, active, nr) && v.Queued(v.curr)
    ensures var p, i, k := v.curr, Slot(active, v.RoleOf(v.curr)), v.rec[v.curr].prio;
            && RecOk(v.rec[p]) && Holds(arrays, i, p, k)
            && var j, w := FindYieldPrio(Dequeued(arrays[i], p, k), k, IsRt(v.rec[p])), YieldPlace(v);
               && Sound(w, arrays[i := Yielded(arrays[i], p, k, IsRt(v.rec[p]))], active, nr)
               && SameBack(v, w, active, p) && BackPointer(w, active, p) == Some(i)
               && w.curr == v.curr && w.idle == v.idle && w.rec == v.rec[p := v.rec[p].(prio := j)]
  {
    var p, r, x := v.curr, v.RoleOf(v.curr), v.rec[v.curr];
    QueuedHome(v, r, x.prio, p);
    var a := arrays[Slot(active, r)];
    YieldedIndexed(a, p, x.prio, IsRt(x));
    RestExact(v, a, p);
    YieldSound(v, arrays, active, nr, EraseAll(v.q[r], p));
  }

  lemma YieldSound(v: View, arrays: seq<PrioArray>, active: nat, nr: int, rest: Queues)
    requires |arrays| == 4 && active < 2 && Sound(v, arrays, active, nr) && v.Queued(v.curr)
    requires rest == EraseAll(v.q[v.RoleOf(v.curr)], v.curr)
    requires var p, k, a := v.curr, v.rec[v.curr].prio, arrays[Slot(active, v.RoleOf(v.curr))];
             && p != v.idle && 0 <= k < MAX_PRIO && a.Formed() && p in a.queue[k] && rest == Dequeued(a, p, k).queue
             && FindYieldPrio(Dequeued(a, p, k), k, IsRt(v.rec[p])) == YieldPrio(rest, k, IsRt(v.rec[p]))
             && Yielded(a, p, k, IsRt(v.rec[p])).Indexed() && Yielded(a, p, k, IsRt(v.rec[p])).nrActive == a.nrActive
             && Fits(v.RoleOf(p), v.rec[p])
    ensures var p, i, k := v.curr, Slot(active, v.RoleOf(v.curr)), v.rec[v.curr].prio;
            && RecOk(v.rec[p])
            && var w := YieldPlace(v);
               && Sound(w, arrays[i := Yielded(arrays[i], p, k, IsRt(v.rec[p]))], active, nr)
               && SameBack(v, w, active, p) && BackPointer(w, active, p) == Some(i)
  {
    hide View.Inv, PrioArray.Indexed, BackPointer, RecOk, Agree;
    InvShaped(v);
    RecAt(v, v.curr);
    var p, r, x := v.curr, v.RoleOf(v.curr), v.rec[v.curr];
    var a, j := arrays[Slot(active, r)], YieldPrio(rest, x.prio, IsRt(x));
    var y, i := x.(prio := j), YieldIndex(rest[j], IsRt(x));
    assert rest[j] == Remove(v.q[r][j], p);
    PlaceInv(v, p, y, r, i);
    PlaceBack(v, active, p, y, r, i);
    PlaceExact(v, p, y, r, i);
    EraseExact(v, p);
    AgreeReplace(v.q, arrays, active, nr, r, Yielded(a, p, x.prio, IsRt(x)));
    assert Place(v, p, y, r, i).q == v.q[r := Yielded(a, p, x.prio, IsRt(x)).queue];
  }

  lemma SoundSplit(v: View, arrays: seq<PrioArray>, active: nat, nr: int, child: Tid)
    requires Sound(v, arrays, active, nr) && v.curr != v.idle && child !in v.rec
    ensures v.Shaped() && active < 2
    ensures var w := SplitView(v, child);
            var split := ForkSplit(v.rec[v.curr]);
            && w.Shaped() && Sound(w, arrays, active, nr) && w.curr == v.curr && w.idle == v.idle
            && w.rec == v.rec[v.curr := KeepTick(split.parent)][child := split.child]
            && (forall t :: t in v.rec ==> BackPointer(w, active, t) == BackPointer(v, active, t))
            && BackPointer(w, active, child) == None
  {
    hide View.Inv;
    InvShaped(v);
    RecAt(v, v.curr);
    var u := SplitView(v, child);
    SetRecInv(v, v.curr, u.rec[v.curr]);
    var w := SetRec(v, v.curr, u.rec[v.curr]);
    SetRecInv(w, child, u.rec[child]);
    SplitBack(v, active, child);
  }

  lemma SplitBack(v: View, active: nat, child: Tid)
    requires v.Shaped() && active < 2 && child !in v.rec && SplitView(v, child).Shaped()
    ensures forall t :: t in v.rec ==> BackPointer(SplitView(v, child), active, t) == BackPointer(v, active, t)
  {
    var u := SplitView(v, child);
    forall t | t in v.rec ensures BackPointer(u, active, t) == BackPointer(v, active, t) {
      assert forall r: Role :: u.In(r, t) == v.In(r, t);
    }
  }

  /** deactivate_task before activate_task makes no difference to where a task ends up. */
  lemma ActivateErased(v: View, arrays: seq<PrioArray>, active: nat, nr: int, p: Tid, hz: Hz, slept: nat)
    requires Sound(v, arrays, active, nr) && p in v.rec && p != v.idle
    ensures v.Shaped() && Erase(v, p).Shaped() && RecOk(v.rec[p]) && Erase(v, p).rec == v.rec
    ensures Erase(v, p).curr == v.curr && Erase(v, p).idle == v.idle
    ensures Activate(Erase(v, p), p, hz, slept) == Activate(v, p, hz, slept)
  {
    ToTailErased(v, p, v.rec[p], ActivateRec(v.rec[p], hz, slept), Home(v.rec[p]));
    assert SetRec(v, p, v.rec[p]) == v && SetRec(Erase(v, p), p, v.rec[p]) == Erase(v, p);
  }

  lemma ChildOk(v: View, arrays: seq<PrioArray>, active: nat, nr: int, child: Tid, hz: Hz)
    requires Sound(v, arrays, active, nr) && child in v.rec && child != v.idle && !v.Queued(child)
    ensures v.Shaped() && RecOk(v.rec[child]) && RecOk(ChildRec(v.rec[child], hz))
    ensures MayRewrite(v, child, ChildRec(v.rec[child], hz))
  {
  }

  /** What the runqueue knows about one of its tasks. */
  lemma TaskFacts(rq: Runqueue, p: Task)
    requires rq.Valid() && rq.Known(p)
    ensures Sound(rq.view, rq.arrays, rq.active, rq.nrRunning) && rq.view.Shaped()
    ensures p.id in rq.view.rec && p.s == rq.view.rec[p.id] && (p.onArray.Some? <==> rq.view.Queued(p.id))
    ensures rq.view.curr == rq.curr && rq.view.idle == rq.idle
    ensures rq.curr in rq.task && rq.task[rq.curr].id == rq.curr && rq.Known(rq.task[rq.curr])
    ensures rq.task[rq.curr].s == rq.view.rec[rq.curr]
  {
  }

  lemma CurrFacts(rq: Runqueue)
    requires rq.Valid()
    ensures rq.curr in rq.task && rq.task[rq.curr].id == rq.curr && rq.Known(rq.task[rq.curr]) && rq.idle in rq.task
    ensures Sound(rq.view, rq.arrays, rq.active, rq.nrRunning) && rq.view.Shaped() && rq.active < 2
    ensures rq.view.curr == rq.curr && rq.view.idle == rq.idle && rq.view.rec.Keys == rq.task.Keys
    ensures rq.task[rq.curr].s == rq.view.rec[rq.curr]
  {
  }

  /** A task that is not queued joins the runqueue's tasks. */
  lemma SoundNewcomer(v: View, arrays: seq<PrioArray>, active: nat, nr: int, p: Tid, x: Rec)
    requires Sound(v, arrays, active, nr) && p !in v.rec && RecOk(x)
    ensures var w := SetRec(v, p, x);
            && v.Shaped() && active < 2 && w.Shaped() && Sound(w, arrays, active, nr) && p != v.idle
            && !w.Queued(p) && BackPointer(w, active, p) == None
            && forall t :: t in v.rec ==> BackPointer(w, active, t) == BackPointer(v, active, t)
  {
    SetRecInv(v, p, x);
    var w := SetRec(v, p, x);
    forall t | t in v.rec ensures BackPointer(w, active, t) == BackPointer(v, active, t) {
      assert forall r: Role :: w.In(r, t) == v.In(r, t);
    }
  }

  /** Queueing a task on an empty list and taking it off again. */
  lemma OnAndOff(a: PrioArray, p: Tid, k: nat)
    requires k < |a.queue| && k < |a.bitmap| && a.queue[k] == [] && !a.bitmap[k]
    ensures Dequeued(Enqueued(a, p, k), p, k) == a
  {
    assert Enqueued(a, p, k).queue[k] == [p];
  }

  /** The boot task after sched_init and init_idle. */
  function Idled(x: Rec, hz: Hz, slept: nat): Rec {
    ActivateRec(x.(state := Running), hz, slept).(prio := MAX_PRIO, state := Running, needResched := true)
  }

  lemma SoundBoot(boot: Tid, x: Rec)
    requires x.prio == MAX_PRIO && x.policy.Other? && x.state.Running?
    ensures Sound(Boot(boot, x), [EMPTY_ARRAY, EMPTY_ARRAY, EMPTY_ARRAY, EMPTY_ARRAY], 0, 0)
    ensures Boot(boot, x).Shaped() && BackPointer(Boot(boot, x), 0, boot) == None
  {
    TotalPositive(EMPTY_ARRAY.queue);
  }

  lemma BootValid(rq: Runqueue, boot: Task)
    requires rq.arrays == [EMPTY_ARRAY, EMPTY_ARRAY, EMPTY_ARRAY, EMPTY_ARRAY] && rq.active == 0 && rq.nrRunning == 0
    requires rq.curr == rq.idle == boot.id && rq.task == map[boot.id := boot] && rq.view == Boot(boot.id, boot.s)
    requires Sound(rq.view, rq.arrays, 0, 0) && rq.view.Shaped() && boot.onArray == None
    requires boot.id in rq.view.rec && BackPointer(rq.view, 0, boot.id) == None
    ensures rq.Valid()
  {
    hide Sound, BackPointer;
  }

  /** A stray pointer is not what the invariant asks for. */
  lemma NeverBoth(rq: Runqueue, p: Task)
    requires rq.Stray(p)
    ensures !rq.Valid()
  {
    assert BackPointer(rq.view, rq.active, p.id) == None;
  }

  lemma StrayFacts(rq: Runqueue, p: Task)
    requires rq.Stray(p)
    ensures Sound(rq.view, rq.arrays, rq.active, rq.nrRunning) && rq.view.Shaped() && rq.Known(p)
    ensures p.id in rq.view.rec && p.s == rq.view.rec[p.id] && p.onArray == Some(SHORT_Q) && !rq.view.Queued(p.id)
    ensures rq.view.idle == rq.idle
  {
  }

  lemma TaskAt(rq: Runqueue, t: Tid)
    requires rq.Valid() && t in rq.view.rec
    ensures t in rq.task && rq.task[t].id == t && rq.task[t].s == rq.view.rec[t] && rq.view.idle == rq.idle
  {
  }

  class Runqueue {
    const hz: Hz
    var arrays: seq<PrioArray>
    var active: nat
    var nrRunning: int
    var curr: Tid
    const idle: Tid
    var task: map<Tid, Task>    // the tasks by address
    ghost var view: View

    ghost predicate Valid()
      reads this, task.Values
    {
      && Sound(view, arrays, active, nrRunning)
      && view.curr == curr && view.idle == idle && view.rec.Keys == task.Keys
      && curr in task && idle in task
      && forall t :: t in task ==>
           task[t].id == t && view.rec[t] == task[t].s && task[t].onArray == BackPointer(view, active, t)
    }

    predicate Known(p: Task)
      reads this`task
    {
      p.id in task && task[p.id] == p
    }

    /** Valid but for one task off the queues, whose `p->array` points at the SHORT array. */
    ghost predicate Stray(p: Task)
      reads this, task.Values
    {
      && Sound(view, arrays, active, nrRunning)
      && view.curr == curr && view.idle == idle && view.rec.Keys == task.Keys
      && curr in task && idle in task && Known(p) && p.id != idle
      && (forall t :: t in task ==> task[t].id == t && view.rec[t] == task[t].s)
      && (forall t :: t in task && t != p.id ==> task[t].onArray == BackPointer(view, active, t))
      && task[p.id].onArray == Some(SHORT_Q) && !view.Queued(p.id)
    }

    /** sched_init, which queues the boot task, followed by init_idle, which takes it off and
        makes it the idle task. */
    constructor (hz: Hz, boot: Task, slept: nat)
      requires RecOk(boot.s) && boot.s.policy.Other?
      modifies boot
      ensures Valid() && task == map[boot.id := boot] && curr == idle == boot.id && this.hz == hz && fresh(this)
      ensures boot.s == Idled(old(boot.s), hz, slept) && view == Boot(boot.id, boot.s)
    {
      ActivateRecOk(boot.s.(state := Running), hz, slept);
      this.hz := hz;
      active, curr, idle, task := 0, boot.id, boot.id, map[boot.id := boot];
      boot.s := ActivateRec(boot.s.(state := Running), hz, slept);
      var k := boot.s.prio;
      var woken := Enqueued(EMPTY_ARRAY, boot.id, k);
      boot.s := boot.s.(prio := MAX_PRIO, state := Running, needResched := true);
      boot.onArray := None;
      arrays := [Dequeued(woken, boot.id, k), EMPTY_ARRAY, EMPTY_ARRAY, EMPTY_ARRAY];
      nrRunning := 0;
      view := Boot(boot.id, boot.s);
      new;
      hide Runqueue.Valid, Sound, Boot, BackPointer;
      OnAndOff(EMPTY_ARRAY, boot.id, k);
      SoundBoot(boot.id, boot.s);
      BootValid(this, boot);
    }

    /** deactivate_task */
    method Deactivate(p: Task)
      requires Valid() && Known(p) && p.onArray.Some?
      modifies this`nrRunning, this`view, this`arrays, p`onArray
      ensures Valid() && view == Erase(old(view), p.id) && p.onArray.None? && nrRunning == old(nrRunning) - 1
    {
      hide View.Inv, View.Shaped, View.Queued, View.RoleOf, BackPointer, Erase, Sound, Slot, Fits, RecOk, Dequeued,
           Holds;
      Located(view, arrays, active, nrRunning, p.id);
      SoundErase(view, arrays, active, nrRunning, p.id);
      nrRunning := nrRunning - 1;
      arrays := Dequeue(arrays, p.onArray.value, p.id, p.s.prio);
      p.onArray := None;
      view := Erase(view, p.id);
    }

    /** The arrays and the task fields have just become those of w. */
    ghost method Settle(p: Task, w: View)
      requires Sound(w, arrays, active, nrRunning) && w.Shaped() && active < 2 && Known(p)
      requires w.curr == curr && w.idle == idle && w.rec.Keys == task.Keys && curr in task && idle in task
      requires w.rec[p.id] == p.s && p.onArray == BackPointer(w, active, p.id)
      requires forall t :: t in task && t != p.id ==> task[t].id == t && w.rec[t] == task[t].s
      requires forall t :: t in task && t != p.id ==> task[t].onArray == BackPointer(w, active, t)
      modifies this`view
      ensures Valid() && view == w
    {
      hide View.Inv, View.Shaped, View.Queued, View.RoleOf, BackPointer, Sound;
      view := w;
    }

    /** Fields of p have just been assigned, none of them deciding its place. */
    ghost method Rewritten(p: Task)
      requires Sound(view, arrays, active, nrRunning)
      requires view.curr == curr && view.idle == idle && view.rec.Keys == task.Keys && Known(p)
      requires curr in task && idle in task
      requires forall t :: t in task ==> task[t].id == t && (t != p.id ==> view.rec[t] == task[t].s)
      requires forall t :: t in task ==> task[t].onArray == BackPointer(view, active, t)
      requires MayRewrite(view, p.id, p.s)
      modifies this`view
      ensures Valid() && view == SetRec(old(view), p.id, p.s)
    {
      hide View.Inv, View.Shaped, View.Queued, View.RoleOf, BackPointer, Sound;
      SoundSetRec(view, arrays, active, nrRunning, p.id, p.s);
      view := SetRec(view, p.id, p.s);
    }

    /** The same for a stray task. */
    ghost method RewrittenStray(p: Task)
      requires Sound(view, arrays, active, nrRunning)
      requires view.curr == curr && view.idle == idle && view.rec.Keys == task.Keys && Known(p)
      requires curr in task && idle in task && p.id != idle
      requires forall t :: t in task ==> task[t].id == t && (t != p.id ==> view.rec[t] == task[t].s)
      requires forall t :: t in task && t != p.id ==> task[t].onArray == BackPointer(view, active, t)
      requires MayRewrite(view, p.id, p.s) && p.onArray == Some(SHORT_Q) && !view.Queued(p.id)
      modifies this`view
      ensures Stray(p) && view == SetRec(old(view), p.id, p.s)
    {
      hide View.Inv, View.Shaped, View.Queued, View.RoleOf, BackPointer, Sound;
      SoundSetRec(view, arrays, active, nrRunning, p.id, p.s);
      OffStaysOff(view, arrays, active, nrRunning, p.id, p.s);
      view := SetRec(view, p.id, p.s);
    }

    /** Assign fields of p that do not decide its place. */
    method Assign(p: Task, x: Rec)
      requires (Valid() && Known(p)) || Stray(p)
      requires MayRewrite(view, p.id, x)
      modifies this`view, p`s
      ensures old(Valid()) ==> Valid()
      ensures old(Stray(p)) ==> Stray(p)
      ensures view == SetRec(old(view), p.id, x) && p.s == x
    {
      hide View.Inv, View.Shaped, View.Queued, View.RoleOf, BackPointer, Sound, MayRewrite;
      ghost var stray := Stray(p);
      if stray { NeverBoth(this, p); }
      p.s := x;
      if stray {
        RewrittenStray(p);
      } else {
        Rewritten(p);
      }
    }

    /** dequeue_task, new fields, enqueue_task into the array of role r. */
    method Requeue(p: Task, x: Rec, r: Role)
      requires Valid() && Known(p) && p.onArray.Some? && RecOk(x) && Fits(r, x)
      modifies this`view, this`arrays, p
      ensures Valid() && p.s == x && p.onArray.Some? && view == ToTail(old(view), p.id, x, r)
    {
      hide View.Inv, View.Shaped, View.Queued, View.RoleOf, BackPointer, ToTail, Sound, Agree, Fits, RecOk, Dequeue,
           Enqueue, Dequeued, Enqueued, Holds, Accepts, Slot;
      Located(view, arrays, active, nrRunning, p.id);
      SoundToTail(view, arrays, active, nrRunning, p.id, x, r);
      arrays := Dequeue(arrays, p.onArray.value, p.id, p.s.prio);
      p.s := x;
      arrays := Enqueue(arrays, Slot(active, r), p.id, x.prio);
      p.onArray := Some(Slot(active, r));
      Settle(p, ToTail(view, p.id, x, r));
    }

    /** activate_task; `slept` is the time since the task's sleep stamp. */
    method Activate(p: Task, slept: nat)
      requires Valid() && Known(p) && p.id != idle && p.onArray.None?
      modifies this`nrRunning, this`view, this`arrays, p
      ensures Valid() && view == SchedSpec.Activate(old(view), p.id, hz, slept)
      ensures p.s == ActivateRec(old(p.s), hz, slept) && p.onArray.Some?
    {
      hide View.Inv, View.Shaped, View.Queued, View.RoleOf, BackPointer, ToTail, Sound, Agree, RecOk, Fits, Enqueue,
           Enqueued, Accepts, Slot, ActivateRec, Home;
      Located(view, arrays, active, nrRunning, p.id);
      ActivateRecOk(p.s, hz, slept);
      SoundEnqueue(view, arrays, active, nrRunning, p.id, ActivateRec(p.s, hz, slept), Home(p.s));
      var target := Home(p.s);
      p.s := ActivateRec(p.s, hz, slept);
      arrays := Enqueue(arrays, Slot(active, target), p.id, p.s.prio);
      p.onArray := Some(Slot(active, target));
      nrRunning := nrRunning + 1;
      Settle(p, ToTail(view, p.id, p.s, target));
    }

    /** The choice among the four arrays, after the array switch. `queue` of the C code
        is the list whose head is returned; it is never left unset here. */
    method FindNext() returns (next: Tid)
      requires Valid() && Pick(view) != idle
      ensures next == Pick(view)
    {
      hide View.Inv, BackPointer, Sound, FirstBit, FirstFrom;
      RoleIndex(view, arrays, active, nrRunning, ACTIVE);
      RoleIndex(view, arrays, active, nrRunning, SHORT_Q);
      RoleIndex(view, arrays, active, nrRunning, OVERDUE_Q);
      var act, shrt, over := arrays[active], arrays[2], arrays[3];
      var idxActive := if act.nrActive > 0 then FirstBit(act.bitmap, 0) else -1;
      var idxShort := if shrt.nrActive > 0 then FirstBit(shrt.bitmap, 0) else -1;
      var idxOverdue := if over.nrActive > 0 then FirstBit(over.bitmap, 0) else -1;
      var queue: seq<Tid>;
      if 0 <= idxActive < MAX_RT_PRIO {
        queue := act.queue[idxActive];
      } else if idxShort >= 0 {
        queue := shrt.queue[idxShort];
      } else if idxActive >= MAX_RT_PRIO {
        queue := act.queue[idxActive];
      } else {
        queue := over.queue[idxOverdue];
      }
      next := queue[0];
    }

    /** The array switch and the pick of schedule(), for a runqueue that is not empty. */
    method PickNext() returns (next: Tid)
      requires Valid() && nrRunning != 0
      modifies this`active, this`view
      ensures Valid() && view == SwitchArrays(old(view)) && next == Pick(view) && next in task
      ensures old(view).Shaped() && SchedPick.IsLeast(old(view), next)
    {
      hide View.Inv, View.Shaped, BackPointer, Sound, FirstBit, FirstFrom, Pick, SchedPick.IsLeast;
      CountsTasks(view, arrays, active, nrRunning);
      RoleIndex(view, arrays, active, nrRunning, ACTIVE);
      SoundPick(view, arrays, active, nrRunning);
      if arrays[active].nrActive == 0 {
        SoundSwitch(view, arrays, active, nrRunning);
        active := 1 - active;
        view := SwitchArrays(view);
      }
      next := FindNext();
    }

    /** The switch itself. */
    method SwitchTo(prev: Task, next: Tid)
      requires Valid() && Known(prev) && next in task
      modifies this`curr, this`view, prev
      ensures Valid() && view == SetRec(old(view), prev.id, old(prev.s).(needResched := false)).(curr := next)
    {
      hide View.Inv, View.Shaped, View.Queued, View.RoleOf, BackPointer, Sound, RecOk, MayRewrite;
      KeepsPlace(view, arrays, active, nrRunning, prev.id, prev.s.(needResched := false));
      Assign(prev, prev.s.(needResched := false));
      SoundCurr(view, arrays, active, nrRunning, next);
      curr := next;
      view := view.(curr := next);
    }

    /** schedule() up to pick_next_task: what becomes of the outgoing task. */
    method Depart(signalPending: bool)
      requires Valid() && (task[curr].s.state.Running? || task[curr].onArray.Some?)
      modifies this`arrays, this`nrRunning, this`view, task[curr]
      ensures Valid() && view == Leave(old(view), signalPending)
    {
      hide View.Inv, View.Shaped, View.Queued, View.RoleOf, BackPointer, Sound, RecOk, MayRewrite, Erase,
           Runqueue.Valid;
      CurrFacts(this);
      IdleAt(view, arrays, active, nrRunning, curr);
      var prev := task[curr];
      TaskFacts(this, prev);
      if prev.s.state.Interruptible? && signalPending {
        KeepsPlace(view, arrays, active, nrRunning, curr, prev.s.(state := Running));
        Assign(prev, prev.s.(state := Running));
      } else if !prev.s.state.Running? {
        Deactivate(prev);
      }
    }

    /** schedule() from pick_next_task on, without the pull of an idle processor. */
    method Choose()
      requires Valid()
      modifies this`active, this`curr, this`view, task[curr]
      ensures Valid() && view == Chosen(old(view))
    {
      hide View.Inv, View.Shaped, View.Queued, View.RoleOf, BackPointer, Sound, RecOk, Pick, SwitchArrays, Empty,
           Runqueue.Valid;
      CurrFacts(this);
      var prev := task[curr];
      CountsTasks(view, arrays, active, nrRunning);
      var next := idle;
      if nrRunning != 0 {
        next := PickNext();
      } else {
        EmptyPick(view);
      }
      CurrFacts(this);
      SwitchTo(prev, next);
    }

    /** schedule(), from the outgoing task to the switch, on one processor. */
    method Schedule(signalPending: bool)
      requires Valid() && (task[curr].s.state.Running? || task[curr].onArray.Some?)
      modifies this, task.Values
      ensures Valid() && view == SchedSpec.Schedule(old(view), signalPending)
    {
      hide View.Inv, Leave, Chosen, View.Shaped, Runqueue.Valid;
      CurrFacts(this);
      Depart(signalPending);
      CurrFacts(this);
      Choose();
    }

    /** try_to_wake_up on this runqueue. A task with a stray `p->array` is lost: it becomes
        runnable without being queued, and no later call queues it. */
    method TryToWakeUp(p: Task, slept: nat) returns (success: bool)
      requires Valid() || Stray(p)
      requires Known(p) && p.id != idle
      modifies this`arrays, this`nrRunning, this`view, task.Values
      ensures old(Valid()) ==>
                && Valid() && view == SchedSpec.TryToWakeUp(old(view), p.id, hz, slept)
                && (success <==> !old(view).Queued(p.id))
      ensures old(Stray(p)) ==>
                && Stray(p) && !success && p.s == old(p.s).(state := Running) && view == SetRec(old(view), p.id, p.s)
    {
      hide View.Inv, View.Shaped, View.Queued, View.RoleOf, BackPointer, Sound, RecOk, MayRewrite, ActivateRec,
           Home, ToTail, Runqueue.Valid, Runqueue.Stray;
      ghost var stray := Stray(p);
      if stray {
        NeverBoth(this, p);
        StrayFacts(this, p);
      } else {
        TaskFacts(this, p);
      }
      WokenOk(view, arrays, active, nrRunning, p.id);
      success := p.onArray.None?;
      Assign(p, p.s.(state := Running));
      if success {
        Activate(p, slept);
        TaskFacts(this, p);
        if p.s.prio < task[curr].s.prio {
          ReschedTask(task[curr]);
        }
      }
    }

    /** resched_task on the running task. */
    method ReschedTask(p: Task)
      requires Valid() && Known(p) && p.id == curr
      modifies this`view, p
      ensures Valid() && view == Resched(old(view)) && p.onArray == old(p.onArray)
    {
      hide View.Inv, View.Shaped, View.Queued, View.RoleOf, BackPointer, Sound, RecOk, MayRewrite;
      KeepsPlace(view, arrays, active, nrRunning, p.id, p.s.(needResched := true));
      Assign(p, p.s.(needResched := true));
    }

    /** scheduler_tick; `toExpired` is the outcome of the interactivity and starvation test. */
    method Tick(toExpired: bool)
      requires Valid() && (curr == idle || task[curr].onArray.Some?)
      modifies this`arrays, this`view, task[curr]
      ensures Valid() && view == SchedSpec.Tick(old(view), hz, toExpired)
      ensures old(task[curr].onArray).Some? ==> task[curr].onArray.Some?
    {
      hide View.Inv, View.Shaped, View.Queued, View.RoleOf, BackPointer, Sound, RecOk, Fits, MayRewrite, ToTail,
           TickShort, TickRt, TickOther;
      Located(view, arrays, active, nrRunning, curr);
      var p := task[curr];
      if curr != idle {
        ChargeOk(view, arrays, active, nrRunning, hz, toExpired);
        var out := Charge(p.s, p.onArray == Some(active), toExpired);
        if out.move.Tail? {
          Requeue(p, out.rec, out.move.role);
        } else {
          Assign(p, out.rec);
        }
      }
    }

    /** The accounting of a tick on the fields of the running task, branch by branch. */
    method Charge(x: Rec, inActive: bool, toExpired: bool) returns (out: Outcome)
      ensures out == TickRec(x, hz, inActive, toExpired)
    {
      var y := x;
      var move := Stay;
      if x.policy.Short? {
        if !x.overdue {
          y := y.(timeSlice := Dec(y.timeSlice));
          if y.timeSlice == 0 {
            y := y.(trial := y.trial + 1, firstTimeSlice := false);
            if y.trial < y.trials {
              y := y.(timeSlice := ShortSlice(y.requestedTime, hz, y.trial));
            }
            if y.trial >= y.trials || y.timeSlice == 0 {
              y := y.(timeSlice := 1, prio := 0, overdue := true);
              move := Tail(OVERDUE_Q);
            } else {
              move := Tail(SHORT_Q);
            }
            y := y.(needResched := true);
          }
        }
      } else if !inActive {
        y := y.(needResched := true);
      } else if IsRt(x) {
        if x.policy.RoundRobin? {
          y := y.(timeSlice := Dec(y.timeSlice));
          if y.timeSlice == 0 {
            y := y.(timeSlice := TaskSlice(y.staticPrio, hz), firstTimeSlice := false, needResched := true);
            move := Tail(ACTIVE);
          }
        }
      } else {
        if y.sleepAvg > 0 {
          y := y.(sleepAvg := y.sleepAvg - 1);
        }
        y := y.(timeSlice := Dec(y.timeSlice));
        if y.timeSlice == 0 {
          y := y.(needResched := true, prio := EffectivePrio(y, hz), firstTimeSlice := false);
          y := y.(timeSlice := TaskSlice(y.staticPrio, hz));
          move := Tail(if toExpired then EXPIRED else ACTIVE);
        }
      }
      out := Outcome(y, move);
    }

    /** set_user_nice */
    method SetUserNice(p: Task, nice: int)
      requires Valid() && Known(p) && p.id != idle
      modifies this, task.Values
      ensures Valid() && view == SchedSpec.SetUserNice(old(view), p.id, nice)
    {
      hide View.Inv, View.Shaped, View.RoleOf, BackPointer, Sound, RecOk, Fits, MayRewrite, ToTail;
      Located(view, arrays, active, nrRunning, p.id);
      TaskFacts(this, p);
      var prio := MAX_RT_PRIO + nice + 20;
      if p.s.staticPrio == prio || nice < -20 || nice > 19 || p.s.policy.Short? {
        return;
      }
      NiceOk(view, arrays, active, nrRunning, p.id, prio);
      if IsRt(p.s) {
        Assign(p, p.s.(staticPrio := prio));
      } else if p.onArray.None? {
        Assign(p, p.s.(staticPrio := prio, prio := prio));
      } else {
        Requeue(p, p.s.(staticPrio := prio, prio := prio), Slot(active, p.onArray.value));
        if p.id == curr {
          ReschedTask(p);
        }
      }
    }

    /** The part of sched_setscheduler after the checks, without the write to `p->array`. */
    method ChangePolicy(p: Task, policy: Policy, q: Request, slept: nat)
      requires Valid() && Known(p) && p.id != idle && Check(p.s, q) == Granted(policy)
      modifies this, task.Values
      ensures Valid() && view == SchedSpec.SetScheduler(old(view), p.id, q, hz, slept)
      ensures task == old(task)
    {
      hide View.Inv, View.Shaped, View.Queued, View.RoleOf, BackPointer, Sound, RecOk, Fits, MayRewrite, ToTail,
           Repolicy, Check, Home, ActivateRec, Erase, Runqueue.Valid;
      TaskFacts(this, p);
      RequestedOk(view, arrays, active, nrRunning, p.id, policy, q, hz);
      RepolicyPlaces(view, arrays, active, nrRunning, p.id, Requested(p.s, policy, q, hz), hz, slept);
      var wasQueued, wasShort := p.onArray.Some?, p.s.policy.Short?;
      if wasQueued {
        Deactivate(p);
      }
      Assign(p, Requested(p.s, policy, q, hz));
      if wasShort && policy.Short? {
        return;
      }
      if wasQueued {
        Activate(p, slept);
      }
      if policy.Short? {
        TaskFacts(this, p);
        ReschedTask(task[curr]);
      }
    }

    /** The write to `p->array` for a task that is off the queues. */
    method PointAtShort(p: Task)
      requires Valid() && Known(p) && p.id != idle && view.Shaped() && p.id in view.rec && !view.Queued(p.id)
      modifies p`onArray
      ensures Stray(p) && !Valid()
    {
      hide View.Inv, View.Shaped, View.Queued, View.RoleOf, BackPointer, Sound;
      p.onArray := Some(SHORT_Q);
      NeverBoth(this, p);
    }

    /** sched_setscheduler up to and including the requeue. A granted OTHER to SHORT
        change of a task that is off the queues writes `p->array` without queueing it. */
    method SetScheduler(p: Task, q: Request, slept: nat) returns (verdict: Verdict)
      requires Valid() && Known(p) && p.id != idle
      modifies this, task.Values
      ensures verdict == Check(old(p.s), q)
      ensures view == SchedSpec.SetScheduler(old(view), p.id, q, hz, slept)
      ensures Valid() <==> !(old(p.onArray).None? && old(p.s).policy.Other? && verdict == Granted(Short))
      ensures !Valid() ==> Stray(p)
      ensures task == old(task)
    {
      hide View.Inv, View.Queued, View.RoleOf, Sound, RecOk, Fits, SchedSpec.SetScheduler, Check, Runqueue.Valid,
           Runqueue.Stray;
      TaskFacts(this, p);
      StaysOff(view, arrays, active, nrRunning, p.id, q, hz, slept);
      verdict := Check(p.s, q);
      var stray := p.s.policy.Other? && p.onArray.None?;
      if verdict.Granted? {
        ChangePolicy(p, verdict.policy, q, slept);
        if verdict.policy.Short? && stray {
          PointAtShort(p);
        }
      } else {
        RefusedIsIdentity(view, p.id, q, hz, slept);
      }
    }

    /** sys_sched_yield up to its call of schedule(). */
    method Yield()
      requires Valid() && task[curr].onArray.Some?
      modifies this`arrays, this`view, task.Values
      ensures Valid() && view == YieldPlace(old(view))
    {
      hide View.Inv, View.Shaped, View.Queued, View.RoleOf, BackPointer, Sound, Agree, RecOk, Fits, YieldPlace,
           Yielded, FindYieldPrio;
      Located(view, arrays, active, nrRunning, curr);
      var p := task[curr];
      var a, k := Relink(arrays[p.onArray.value], curr, p.s.prio, IsRt(p.s));
      Install(p, a, k);
    }

    /** Storing the array and the priority found by a yield. */
    method Install(p: Task, a: PrioArray, k: int)
      requires Valid() && Known(p) && p.id == curr && p.onArray.Some?
      requires Holds(arrays, p.onArray.value, curr, p.s.prio)
      requires k == FindYieldPrio(Dequeued(arrays[p.onArray.value], curr, p.s.prio), p.s.prio, IsRt(p.s))
      requires a == Yielded(arrays[p.onArray.value], curr, p.s.prio, IsRt(p.s))
      modifies this`arrays, this`view, p
      ensures Valid() && view == YieldPlace(old(view))
    {
      hide View.Inv, View.Shaped, View.Queued, View.RoleOf, BackPointer, Sound, Agree, RecOk, Fits, YieldPlace,
           Yielded, FindYieldPrio;
      Located(view, arrays, active, nrRunning, curr);
      SoundYield(view, arrays, active, nrRunning);
      p.s := p.s.(prio := k);
      arrays := arrays[p.onArray.value := a];
      view := YieldPlace(view);
    }

    /** The list surgery of sys_sched_yield on one array. */
    method Relink(a: PrioArray, p: Tid, k: nat, rt: bool) returns (b: PrioArray, j: nat)
      requires a.Indexed() && k < MAX_PRIO && p in a.queue[k]
      ensures j == FindYieldPrio(Dequeued(a, p, k), k, rt) && b == Yielded(a, p, k, rt)
    {
      ghost var d := Dequeued(a, p, k);
      assert a.bitmap[k := true] == a.bitmap == a.bitmap[k := false][k := true];
      assert Insert(d.queue[k], |d.queue[k]|, p) == d.queue[k] + [p];
      b, j := a.(queue := a.queue[k := Remove(a.queue[k], p)]), k;
      if rt {
        b := b.(queue := b.queue[k := b.queue[k] + [p]]);
      } else if b.queue[k] != [] {
        b := b.(queue := InsertAt(b.queue, k, 1, p));
      } else {
        b := b.(bitmap := b.bitmap[k := false]);
        j := FirstBit(b.bitmap, 0);
        if j == MAX_PRIO || j <= k {
          j := k;
        }
        b := b.(queue := InsertAt(b.queue, j, if b.queue[j] == [] then 0 else 1, p));
        b := b.(bitmap := b.bitmap[j := true]);
      }
    }

    /** p belongs to the runqueue from now on, and the lists and fields are those of w. */
    method Register(p: Task, ghost w: View)
      requires Sound(w, arrays, active, nrRunning) && w.Shaped() && active < 2
      requires w.curr == curr && w.idle == idle && curr in task && idle in task
      requires w.rec.Keys == task.Keys + {p.id} && w.rec[p.id] == p.s && p.onArray == BackPointer(w, active, p.id)
      requires forall t :: t in task ==> t != p.id && task[t].id == t && w.rec[t] == task[t].s
      requires forall t :: t in task ==> task[t].onArray == BackPointer(w, active, t)
      modifies this`task, this`view
      ensures Valid() && view == w && task == old(task)[p.id := p]
    {
      hide View.Inv, View.Shaped, View.Queued, View.RoleOf, BackPointer, Sound;
      task := task[p.id := p];
      view := w;
    }

    /** The slice and trial split of do_fork; the child enters the task table. */
    method SplitSlices(child: Task)
      requires Valid() && curr != idle && child.id !in task
      modifies this`task, this`view, task[curr], child
      ensures Valid() && view == SplitView(old(view), child.id) && task == old(task)[child.id := child]
      ensures task[curr].onArray == old(task[curr].onArray) && child.onArray.None?
    {
      hide View.Inv, View.Shaped, BackPointer, Sound, ForkSplit, SplitView, KeepTick;
      SoundSplit(view, arrays, active, nrRunning, child.id);
      var p := task[curr];
      var split := ForkSplit(p.s);
      child.s := split.child;
      child.onArray := None;
      p.s := KeepTick(split.parent);
      Register(child, SplitView(view, child.id));
    }

    /** wake_up_forked_process */
    method WakeForked(child: Task, parentSlept: nat, childSlept: nat)
      requires Valid() && Known(child) && child.id != curr && child.id != idle && child.onArray.None?
      requires curr != idle && task[curr].onArray.Some?
      modifies this`nrRunning, this`view, this`arrays, task[curr], child
      ensures Valid() && view == SchedSpec.WakeForked(old(view), child.id, hz, parentSlept, childSlept)
    {
      hide View.Inv, View.Shaped, View.Queued, View.RoleOf, BackPointer, Sound, RecOk, MayRewrite, ToTail, Home,
           ActivateRec, ChildRec, Erase, Runqueue.Valid;
      TaskFacts(this, child);
      ActivateErased(view, arrays, active, nrRunning, curr, hz, parentSlept);
      if child.s.policy.Short? {
        Deactivate(task[curr]);
        Activate(task[curr], parentSlept);
      }
      TaskFacts(this, child);
      ChildOk(view, arrays, active, nrRunning, child.id, hz);
      Assign(child, ChildRec(child.s, hz));
      Activate(child, childSlept);
    }

    /** do_fork, from the slice split to the wake-up of the child. A parent without a
        slice is a kernel bug there. */
    method Fork(child: Task, toExpired: bool, parentSlept: nat, childSlept: nat)
      requires Valid() && curr != idle && task[curr].onArray.Some? && task[curr].s.timeSlice != 0
      requires child.id !in task
      modifies this, task.Values, child
      ensures Valid() && view == SchedSpec.Fork(old(view), child.id, hz, toExpired, parentSlept, childSlept)
      ensures task == old(task)[child.id := child]
    {
      hide View.Inv, View.Shaped, View.Queued, View.RoleOf, BackPointer, Sound, RecOk, ForkSplit, SplitView,
           SchedSpec.WakeForked, SchedSpec.Tick;
      var spent := ForkSplit(task[curr].s).parent.timeSlice == 0;
      SplitSlices(child);
      if spent {
        Tick(toExpired);
      }
      WakeForked(child, parentSlept, childSlept);
    }
  }
}
