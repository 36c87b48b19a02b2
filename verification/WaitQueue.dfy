/** Wait queues: lists of waiting tasks with the non-exclusive ones in front, and the
    wake-up that walks them. */
module WaitQueues {
  import opened Lists
  import opened TaskModel
  import opened Entities
  import opened SchedSpec
  import opened SchedInvariant
  import opened SchedRuns
  import opened RunqueueModel

  /** What a wake-up sees of a task: its state, and whether it is on the runqueue. */
  datatype Sleeper = Sleeper(state: State, queued: bool)

  type Sleepers = map<Tid, Sleeper>

  datatype Entry = Entry(task: Tid, exclusive: bool)

  const AWAKE := Sleeper(Running, true)

  /** Every entry is for a known task. */
  ghost predicate Known(q: seq<Entry>, ts: Sleepers) {
    forall i :: 0 <= i < |q| ==> q[i].task in ts
  }

  /** Non-exclusive entries come first. */
  ghost predicate Ordered(q: seq<Entry>) {
    forall i, j :: 0 <= i < j < |q| && q[i].exclusive ==> q[j].exclusive
  }

  /** `state & mode`; the running state is zero and matches no mode. */
  predicate Eligible(s: Sleeper, mode: set<State>) { s.state in mode && !s.state.Running? }

  /** Entry i is exclusive and waking its task puts it on the runqueue, no earlier entry
      being for the same task. */
  predicate Wakeable(q: seq<Entry>, ts: Sleepers, mode: set<State>, i: nat)
    requires i < |q| && q[i].task in ts
  {
    && q[i].exclusive && Eligible(ts[q[i].task], mode) && !ts[q[i].task].queued
    && forall j :: 0 <= j < i ==> q[j].task != q[i].task
  }

  /** How many of the first k entries are wakeable. */
  ghost function Count(q: seq<Entry>, ts: Sleepers, mode: set<State>, k: nat): nat
    requires k <= |q| && Known(q, ts)
  {
    if k == 0 then 0 else Count(q, ts, mode, k - 1) + (if Wakeable(q, ts, mode, k - 1) then 1 else 0)
  }

  /** How many entries a wake-up of n exclusive tasks looks at: up to the n-th wakeable
      one, or all. */
  ghost function Stop(q: seq<Entry>, ts: Sleepers, mode: set<State>, n: int, k: nat): (i: nat)
    requires k <= |q| && Known(q, ts)
    ensures k <= i <= |q|
    decreases |q| - k
  {
    if k == |q| then k
    else if Wakeable(q, ts, mode, k) && Count(q, ts, mode, k + 1) == n then k + 1
    else Stop(q, ts, mode, n, k + 1)
  }

  /** The tasks after the first k entries have been attempted. */
  ghost function After(q: seq<Entry>, ts: Sleepers, mode: set<State>, k: nat): Sleepers
    requires k <= |q|
  {
    map t | t in ts :: if Eligible(ts[t], mode) && (exists i :: 0 <= i < k && q[i].task == t) then AWAKE else ts[t]
  }

  lemma {:induction false} CountMono(q: seq<Entry>, ts: Sleepers, mode: set<State>, i: nat, k: nat)
    requires i <= k <= |q| && Known(q, ts)
    ensures Count(q, ts, mode, i) <= Count(q, ts, mode, k)
    decreases k
  {
    if i < k { CountMono(q, ts, mode, i, k - 1); }
  }

  lemma {:induction false} StopCount(q: seq<Entry>, ts: Sleepers, mode: set<State>, n: int, k: nat)
    requires k <= |q| && Known(q, ts) && (n <= 0 || Count(q, ts, mode, k) < n)
    ensures var i := Stop(q, ts, mode, n, k);
            if n > 0 && Count(q, ts, mode, |q|) >= n
            then i > k && Count(q, ts, mode, i) == n && Wakeable(q, ts, mode, i - 1)
            else i == |q|
    decreases |q| - k
  {
    if k < |q| {
      CountMono(q, ts, mode, k + 1, |q|);
      if !(Wakeable(q, ts, mode, k) && Count(q, ts, mode, k + 1) == n) {
        StopCount(q, ts, mode, n, k + 1);
      }
    }
  }

  /** A wake-up with n > 0 attempts every non-exclusive entry and puts min(n, wakeable)
      exclusive tasks on the runqueue, the first ones in queue order; with n = 0 it attempts
      every entry. */
  lemma WakeUpReach(q: seq<Entry>, ts: Sleepers, mode: set<State>, n: nat)
    requires Known(q, ts) && Ordered(q)
    ensures var k, all := Stop(q, ts, mode, n, 0), Count(q, ts, mode, |q|);
            && (n == 0 ==> k == |q|)
            && (n > 0 ==> Count(q, ts, mode, k) == (if n < all then n else all))
            && (forall i :: 0 <= i < |q| && !q[i].exclusive ==> i < k)
  {
    StopCount(q, ts, mode, n, 0);
  }

  /** Entry k as the walk finds it, after the attempts on the entries before it. */
  lemma Attempt(q: seq<Entry>, ts: Sleepers, mode: set<State>, k: nat)
    requires k < |q| && Known(q, ts)
    ensures var us, t := After(q, ts, mode, k), q[k].task;
            && t in us
            && After(q, ts, mode, k + 1) == (if Eligible(us[t], mode) then us[t := AWAKE] else us)
            && (Wakeable(q, ts, mode, k) <==> q[k].exclusive && Eligible(us[t], mode) && !us[t].queued)
  {
    var us, t := After(q, ts, mode, k), q[k].task;
    var ws := After(q, ts, mode, k + 1);
    forall u | u in ts ensures ws[u] == (if Eligible(us[t], mode) then us[t := AWAKE] else us)[u] {
      if u == t { assert q[k].task == u; }
    }
  }

  // ---- on the runqueue ------------------------------------------------------------------

  ghost function See(v: View): Sleepers
    requires v.Shaped()
  {
    map t | t in v.rec :: Sleeper(v.rec[t].state, v.Queued(t))
  }

  /** try_to_wake_up as a wake-up sees it. */
  lemma WakeSeen(v: View, p: Tid, hz: Hz, slept: nat)
    requires v.Inv() && p in v.rec && p != v.idle
    ensures RecOk(v.rec[p]) && v.Shaped()
    ensures var w := TryToWakeUp(v, p, hz, slept);
            w.Inv() && w.rec.Keys == v.rec.Keys && w.idle == v.idle && See(w) == See(v)[p := AWAKE]
  {
    hide View.Inv, TryToWakeUp, View.Queued;
    RecAt(v, p);
    WakeInv(v, p, hz, slept);
    var w := TryToWakeUp(v, p, hz, slept);
    InvShaped(w);
    forall t | t in v.rec && t != p ensures t in w.rec && See(w)[t] == See(v)[t] {
      WakeAlike(v, hz, p, slept, t);
    }
  }

  lemma WakeInv(v: View, p: Tid, hz: Hz, slept: nat)
    requires v.Inv() && p in v.rec && p != v.idle
    ensures RecOk(v.rec[p]) && v.Shaped()
    ensures var w := TryToWakeUp(v, p, hz, slept);
            w.Inv() && w.rec.Keys == v.rec.Keys && w.idle == v.idle && w.Queued(p) && w.rec[p].state.Running?
  {
    hide View.Inv, ToTail, ActivateRec;
    RecAt(v, p);
    var x := v.rec[p].(state := Running);
    if v.Queued(p) {
      SetRecInv(v, p, x);
    } else {
      var y := ActivateRec(x, hz, slept);
      ActivateRecOk(x, hz, slept);
      ActivateRecKeeps(x, hz, slept);
      TailInv(v, p, y, Home(x));
      ToTailOver(v, p, x, y, Home(x));
      ReschedInv(ToTail(v, p, y, Home(x)));
    }
  }

  lemma TailInv(v: View, p: Tid, x: Rec, r: Role)
    requires v.Inv() && p != v.idle && RecOk(x) && Fits(r, x)
    ensures ToTail(v, p, x, r).Inv() && ToTail(v, p, x, r).Queued(p)
  {
    PlaceInv(v, p, x, r, |Remove(v.q[r][x.prio], p)|);
  }

  lemma ReschedInv(v: View)
    requires v.Inv()
    ensures v.Shaped() && Resched(v).Inv() && Resched(v).rec.Keys == v.rec.Keys
    ensures forall t :: t in v.rec ==>
              (Resched(v).Queued(t) <==> v.Queued(t)) && Resched(v).rec[t].state == v.rec[t].state
  {
    SetRecInv(v, v.curr, v.rec[v.curr].(needResched := true));
  }

  /** One attempt: a task that is not eligible is passed over. */
  ghost function Attempted(v: View, p: Tid, mode: set<State>, hz: Hz, slept: nat): View {
    if v.Inv() && p in v.rec && p != v.idle && Eligible(See(v)[p], mode) then
      RecAt(v, p);
      TryToWakeUp(v, p, hz, slept)
    else v
  }

  /** The runqueue after the first k entries have been attempted; slept gives each task's
      time since its sleep stamp. */
  ghost function Woken(v: View, q: seq<Entry>, mode: set<State>, hz: Hz, slept: seq<nat>, k: nat): View
    requires k <= |q| == |slept|
  {
    if k == 0 then v else Attempted(Woken(v, q, mode, hz, slept, k - 1), q[k - 1].task, mode, hz, slept[k - 1])
  }

  ghost predicate Waiting(v: View, q: seq<Entry>) {
    v.Inv() && Known(q, See(v)) && forall i :: 0 <= i < |q| ==> q[i].task != v.idle
  }

  lemma AttemptSeen(v: View, p: Tid, mode: set<State>, hz: Hz, slept: nat)
    requires v.Inv() && p in v.rec && p != v.idle
    ensures v.Shaped()
    ensures var w := Attempted(v, p, mode, hz, slept);
            && w.Inv() && w.rec.Keys == v.rec.Keys && w.idle == v.idle
            && See(w) == if Eligible(See(v)[p], mode) then See(v)[p := AWAKE] else See(v)
  {
    hide View.Inv, TryToWakeUp, View.Queued, See;
    WakeSeen(v, p, hz, slept);
  }

  /** The walk over the wait queue does to states and queueing what After says. */
  lemma {:induction false} WokenSeen(v: View, q: seq<Entry>, mode: set<State>, hz: Hz, slept: seq<nat>, k: nat)
    requires Waiting(v, q) && k <= |q| == |slept|
    ensures v.Shaped() && Known(q, See(v))
    ensures var w := Woken(v, q, mode, hz, slept, k);
            && w.Inv() && w.idle == v.idle && w.rec.Keys == v.rec.Keys && See(w) == After(q, See(v), mode, k)
  {
    hide View.Inv, View.Queued, See, Attempted, Eligible, After, View.Shaped;
    InvShaped(v);
    SeeKeys(v);
    if k == 0 {
      AfterNone(q, See(v), mode);
    } else {
      WokenSeen(v, q, mode, hz, slept, k - 1);
      var u := Woken(v, q, mode, hz, slept, k - 1);
      InvShaped(u);
      SeeKeys(u);
      Attempt(q, See(v), mode, k - 1);
      AttemptSeen(u, q[k - 1].task, mode, hz, slept[k - 1]);
    }
  }

  /** Which eligible tasks __wake_up owes a wake-up: with n = 0 all, otherwise those with a
      non-exclusive entry and those with an exclusive entry that has fewer than n wakeable
      entries before it. */
  ghost predicate Owed(q: seq<Entry>, ts: Sleepers, mode: set<State>, n: nat, i: nat)
    requires i < |q| && Known(q, ts)
  {
    Eligible(ts[q[i].task], mode) && (n == 0 || !q[i].exclusive || Count(q, ts, mode, i) < n)
  }

  /** __wake_up leaves every task it owes a wake-up runnable and queued, and every other task
      in the state and on or off the runqueue as it was. */
  lemma WakeUpAwakens(v: View, q: seq<Entry>, mode: set<State>, hz: Hz, slept: seq<nat>, n: nat)
    requires Waiting(v, q) && Ordered(q) && |q| == |slept|
    ensures v.Shaped() && Known(q, See(v))
    ensures var w := Woken(v, q, mode, hz, slept, Stop(q, See(v), mode, n, 0));
            && w.Shaped() && w.rec.Keys == v.rec.Keys
            && (forall i :: 0 <= i < |q| && Owed(q, See(v), mode, n, i) ==> See(w)[q[i].task] == AWAKE)
            && (forall t ::
                  t in v.rec && (forall i :: 0 <= i < |q| && q[i].task == t ==> !Owed(q, See(v), mode, n, i)) ==>
                  See(w)[t] == See(v)[t])
  {
    hide View.Inv, View.Queued, Ordered, Owed;
    WalkStart(v, q, mode, hz, slept, n);
    var ts, k := See(v), Stop(q, See(v), mode, n, 0);
    WokenSeen(v, q, mode, hz, slept, k);
    var w := Woken(v, q, mode, hz, slept, k);
    InvShaped(w);
    forall i | 0 <= i < |q| ensures i < k && Eligible(ts[q[i].task], mode) <==> Owed(q, ts, mode, n, i) {
      OwedIffReached(q, ts, mode, n, i);
    }
  }

  /** An entry is owed a wake-up exactly if its task is eligible and the walk reaches it. */
  lemma OwedIffReached(q: seq<Entry>, ts: Sleepers, mode: set<State>, n: nat, i: nat)
    requires Known(q, ts) && Ordered(q) && i < |q|
    ensures Owed(q, ts, mode, n, i) <==> Eligible(ts[q[i].task], mode) && i < Stop(q, ts, mode, n, 0)
  {
    WakeUpReach(q, ts, mode, n);
    StopCount(q, ts, mode, n, 0);
    var k := Stop(q, ts, mode, n, 0);
    if n > 0 && Count(q, ts, mode, |q|) >= n {
      if i < k {
        CountMono(q, ts, mode, i, k - 1);
      } else {
        CountMono(q, ts, mode, k, i);
      }
    } else {
      CountMono(q, ts, mode, i, |q|);
    }
  }

  /** `(state & mode) && try_to_wake_up(p)`, as a truth value. */
  ghost predicate Succeeds(v: View, p: Tid, mode: set<State>)
    requires v.Shaped() && p in v.rec
  {
    v.rec[p].state in mode && !v.rec[p].state.Running? && !v.Queued(p)
  }

  /** What one turn of the loop in __wake_up_common does, and whether it is the last. */
  lemma WalkStep(v: View, q: seq<Entry>, mode: set<State>, hz: Hz, slept: seq<nat>, n: int, k: nat)
    requires Waiting(v, q) && k < |q| == |slept|
    ensures v.Shaped() && Known(q, See(v))
    ensures var u, p := Woken(v, q, mode, hz, slept, k), q[k].task;
            && u.Inv() && u.Shaped() && p in u.rec && p != u.idle && RecOk(u.rec[p])
            && (Wakeable(q, See(v), mode, k) <==> q[k].exclusive && Succeeds(u, p, mode))
            && Woken(v, q, mode, hz, slept, k + 1) == Attempted(u, p, mode, hz, slept[k])
            && Count(q, See(v), mode, k + 1)
               == Count(q, See(v), mode, k) + (if Wakeable(q, See(v), mode, k) then 1 else 0)
            && Stop(q, See(v), mode, n, k) ==
               if Wakeable(q, See(v), mode, k) && Count(q, See(v), mode, k + 1) == n then k + 1
               else Stop(q, See(v), mode, n, k + 1)
  {
    hide View.Inv, View.Queued, View.Shaped, After, TryToWakeUp;
    WokenSeen(v, q, mode, hz, slept, k);
    Attempt(q, See(v), mode, k);
    var u := Woken(v, q, mode, hz, slept, k);
    InvShaped(u);
    RecAt(u, q[k].task);
  }

  lemma WalkStart(v: View, q: seq<Entry>, mode: set<State>, hz: Hz, slept: seq<nat>, n: int)
    requires Waiting(v, q) && |q| == |slept|
    ensures v.Inv() && v.Shaped() && Known(q, See(v))
    ensures Count(q, See(v), mode, 0) == 0 && Stop(q, See(v), mode, n, |q|) == |q|
    ensures Woken(v, q, mode, hz, slept, 0) == v
  {
  }

  lemma SeeKeys(v: View)
    requires v.Shaped()
    ensures See(v).Keys == v.rec.Keys
  {
  }

  lemma AfterNone(q: seq<Entry>, ts: Sleepers, mode: set<State>)
    ensures After(q, ts, mode, 0) == ts
  {
  }

  // ---- the list ---------------------------------------------------------------------------

  /** wait_queue_t */
  class Wait {
    const task: Tid
    var exclusive: bool    // WQ_FLAG_EXCLUSIVE

    constructor (task: Tid)
      ensures this.task == task && !exclusive
    {
      this.task, exclusive := task, false;
    }
  }

  function Shown(ws: seq<Wait>): (q: seq<Entry>)
    reads ws
    ensures |q| == |ws| && forall i :: 0 <= i < |ws| ==> q[i] == Entry(ws[i].task, ws[i].exclusive)
  {
    if ws == [] then [] else [Entry(ws[0].task, ws[0].exclusive)] + Shown(ws[1..])
  }

  lemma OrderedCut(q: seq<Entry>, i: nat)
    requires Ordered(q) && i < |q|
    ensures Ordered(q[..i] + q[i + 1..])
  {
    var r := q[..i] + q[i + 1..];
    assert forall j :: 0 <= j < |r| ==> r[j] == q[if j < i then j else j + 1];
  }

  lemma InsertLast<T>(s: seq<T>, x: T)
    ensures Insert(s, |s|, x) == s + [x]
  {
  }

  class WaitQueue {
    var list: seq<Wait>

    ghost predicate Valid()
      reads this, list
    {
      Distinct(list) && Ordered(Shown(list))
    }

    constructor ()
      ensures Valid() && list == []
    {
      list := [];
    }

    /** add_wait_queue */
    method Add(w: Wait)
      requires Valid() && w !in list
      modifies this, w
      ensures Valid() && list == [w] + old(list) && !w.exclusive
    {
      w.exclusive := false;
      list := [w] + list;
    }

    /** add_wait_queue_exclusive */
    method AddExclusive(w: Wait)
      requires Valid() && w !in list
      modifies this, w
      ensures Valid() && list == old(list) + [w] && w.exclusive
    {
      hide Shown, Insert;
      w.exclusive := true;
      InsertMembers(list, |list|, w);
      InsertLast(list, w);
      list := list + [w];
    }

    /** remove_wait_queue */
    method Take(w: Wait)
      requires Valid() && w in list
      modifies this
      ensures Valid() && list == Remove(old(list), w) && w !in list
    {
      hide Ordered, Shown, Remove;
      ghost var i, q :| 0 <= i < |list| && list[i] == w && q == Shown(list);
      RemoveSplits(list, i);
      RemoveMembers(list, w);
      list := Remove(list, w);
      OrderedCut(q, i);
      assert Shown(list) == q[..i] + q[i + 1..];
    }

    /** The attempt on one task in __wake_up_common. */
    static method Attempt(rq: Runqueue, p: Task, mode: set<State>, slept: nat) returns (success: bool)
      requires rq.Valid() && rq.Known(p) && p.id != rq.idle
      modifies rq`arrays, rq`nrRunning, rq`view, rq.task.Values
      ensures rq.Valid() && rq.view == Attempted(old(rq.view), p.id, mode, rq.hz, slept)
      ensures old(rq.view).Shaped() && p.id in old(rq.view).rec
      ensures success <==> Succeeds(old(rq.view), p.id, mode)
    {
      hide View.Inv, View.Queued, View.Shaped, Agree, BackPointer;
      InvShaped(rq.view);
      success := false;
      if p.s.state in mode && !p.s.state.Running? {
        success := rq.TryToWakeUp(p, slept);
      }
    }

    /** __wake_up_common, on tasks of one runqueue. */
    method WakeUp(rq: Runqueue, mode: set<State>, n: int, slept: seq<nat>)
      requires rq.Valid() && Waiting(rq.view, Shown(list)) && |slept| == |list|
      modifies rq`arrays, rq`nrRunning, rq`view, rq.task.Values
      ensures rq.Valid() && Waiting(old(rq.view), Shown(list))
      ensures var q, v := Shown(list), old(rq.view);
              rq.view == Woken(v, q, mode, rq.hz, slept, Stop(q, See(v), mode, n, 0))
    {
      hide View.Inv, View.Queued, View.Shaped, See, Sound, Wakeable, BackPointer, Waiting, Ordered, Known, Distinct,
           RecOk, Shown, Stop, Count, Woken, Attempted, Succeeds, Runqueue.Valid;
      WalkStart(rq.view, Shown(list), mode, rq.hz, slept, n);
      ghost var q, v := Shown(list), rq.view;
      var left, i := n, 0;
      while i < |list|
        invariant i <= |list| && rq.Valid() && Shown(list) == q && rq.view == Woken(v, q, mode, rq.hz, slept, i)
        invariant v.Shaped() && Known(q, See(v)) && Waiting(v, q)
        invariant left == n - Count(q, See(v), mode, i) && Stop(q, See(v), mode, n, i) == Stop(q, See(v), mode, n, 0)
      {
        WalkStep(v, q, mode, rq.hz, slept, n, i);
        TaskAt(rq, q[i].task);
        var success := Attempt(rq, rq.task[list[i].task], mode, slept[i]);
        if success && list[i].exclusive {
          left := left - 1;
          if left == 0 {
            i := i + 1;
            break;
          }
        }
        i := i + 1;
      }
    }
  }
}
