/** load_balance: which tasks it pulls, in which order and how many, and the schedule() that runs them. */
module LoadBalancer {
  import opened Lists
  import opened TaskModel
  import opened Entities
  import opened SchedSpec
  import opened SchedInvariant
  import opened SchedPick
  import opened RunqueueModel

  /** What decides whether a task may be moved: how long it has been off the processor, and
      the processors it may run on. */
  datatype Traits = Traits(sleptFor: nat, allowed: set<nat>)

  /** The target processor, and cache_decay_ticks. */
  datatype Filter = Filter(traits: map<Tid, Traits>, decay: nat, cpu: nat)

  /** CAN_MIGRATE_TASK */
  predicate CanMigrate(f: Filter, curr: Tid, p: Tid) {
    p in f.traits && f.traits[p].sleptFor > f.decay && p != curr && f.cpu in f.traits[p].allowed
  }

  // ---- the tasks to move, in order ------------------------------------------------------------

  /** The movable tasks of one list, from its tail to its head. */
  function Walk(q: seq<Tid>, f: Filter, curr: Tid): seq<Tid> {
    if q == [] then []
    else
      var p := q[|q| - 1];
      (if CanMigrate(f, curr, p) then [p] else []) + Walk(q[..|q| - 1], f, curr)
  }

  /** ... of all lists from priority k on. */
  function WalkFrom(qs: Queues, k: nat, f: Filter, curr: Tid): seq<Tid>
    requires k <= |qs|
    decreases |qs| - k
  {
    if k == |qs| then [] else Walk(qs[k], f, curr) + WalkFrom(qs, k + 1, f, curr)
  }

  /** Expired tasks first. */
  function Candidates(v: View, f: Filter): seq<Tid>
    requires v.Shaped()
  {
    WalkFrom(v.q[EXPIRED], 0, f, v.curr) + WalkFrom(v.q[ACTIVE], 0, f, v.curr)
  }

  /** What is left when the search stands at position i of list k of role r. */
  function Rest(v: View, f: Filter, r: Role, k: nat, i: nat): seq<Tid>
    requires v.Shaped() && k < MAX_PRIO && i <= |v.q[r][k]|
  {
    Walk(v.q[r][k][..i], f, v.curr) + Beyond(v, f, r, k + 1)
  }

  /** What is left from list k of role r on. */
  function Beyond(v: View, f: Filter, r: Role, k: nat): seq<Tid>
    requires v.Shaped() && k <= MAX_PRIO
  {
    WalkFrom(v.q[r], k, f, v.curr) + if r == EXPIRED then WalkFrom(v.q[ACTIVE], 0, f, v.curr) else []
  }

  // ---- moving many tasks -----------------------------------------------------------------------

  function GiveAll(v: View, ms: seq<Tid>): (w: View)
    requires v.Shaped() && v.curr !in ms && v.idle !in ms
    ensures w.Shaped() && w.curr == v.curr && w.idle == v.idle
  {
    if ms == [] then v else Give(GiveAll(v, ms[..|ms| - 1]), ms[|ms| - 1])
  }

  function TakeAll(v: View, ms: seq<Tid>, rec: map<Tid, Rec>): (w: View)
    requires v.Shaped() && forall p :: p in ms ==> p in rec && 0 <= rec[p].prio < MAX_PRIO
    ensures w.Shaped() && w.curr == v.curr && w.idle == v.idle
  {
    if ms == [] then v else Take(TakeAll(v, ms[..|ms| - 1], rec), ms[|ms| - 1], rec[ms[|ms| - 1]])
  }

  /** Leaving the list it is in erases a task from the runqueue. */
  lemma GiveLists(v: View, r: Role, k: nat, i: nat)
    requires v.Inv() && k < MAX_PRIO && i < |v.q[r][k]| && v.q[r][k][i] != v.curr
    ensures var p := v.q[r][k][i];
            && p in v.rec && p != v.idle && v.In(r, p)
            && Give(v, p).q == v.q[r := v.q[r][k := v.q[r][k][..i] + v.q[r][k][i + 1..]]]
  {
    var p := v.q[r][k][i];
    QueuedHome(v, r, k, p);
    OneRole(v, r, v.RoleOf(p), p);
    EraseExact(v, p);
    assert Cell(v.q[r][k], r, k, v.rec);
    RemoveSplits(v.q[r][k], i);
  }

  // ---- the search -----------------------------------------------------------------------------------

  lemma WalkTail(q: seq<Tid>, f: Filter, curr: Tid, i: nat)
    requires i < |q|
    ensures Walk(q[..i + 1], f, curr) == (if CanMigrate(f, curr, q[i]) then [q[i]] else []) + Walk(q[..i], f, curr)
  {
    assert q[..i + 1][..i] == q[..i];
  }

  lemma {:induction false} WalkEmpty(qs: Queues, k: nat, i: nat, f: Filter, curr: Tid)
    requires k <= i <= |qs| && forall j :: k <= j < i ==> qs[j] == []
    ensures WalkFrom(qs, k, f, curr) == WalkFrom(qs, i, f, curr)
    decreases i - k
  {
    if k < i { WalkEmpty(qs, k + 1, i, f, curr); }
  }

  lemma {:induction false} WalkSame(qs: Queues, rs: Queues, k: nat, f: Filter, curr: Tid)
    requires k <= |qs| == |rs| && forall j :: k <= j < |qs| ==> qs[j] == rs[j]
    ensures WalkFrom(qs, k, f, curr) == WalkFrom(rs, k, f, curr)
    decreases |qs| - k
  {
    if k < |qs| { WalkSame(qs, rs, k + 1, f, curr); }
  }

  /** Moving the task the search stands at takes it off what is left, and nothing else. */
  lemma MoveStep(v: View, f: Filter, r: Role, k: nat, i: nat)
    requires v.Inv() && (r == ACTIVE || r == EXPIRED) && k < MAX_PRIO && i < |v.q[r][k]|
    requires CanMigrate(f, v.curr, v.q[r][k][i])
    ensures var p := v.q[r][k][i];
            && Movable(v, p) && p in v.rec && p != v.idle && |Give(v, p).q[r][k]| == |v.q[r][k]| - 1
            && Rest(v, f, r, k, i + 1) == [p] + Rest(Give(v, p), f, r, k, i)
  {
    hide View.Inv, Give, Walk, WalkFrom, View.In;
    InvShaped(v);
    var p, q := v.q[r][k][i], v.q[r][k];
    assert p != v.curr;
    GiveLists(v, r, k, i);
    var w := Give(v, p);
    WalkTail(q, f, v.curr, i);
    assert w.q[r][k][..i] == q[..i];
    WalkSame(v.q[r], w.q[r], k + 1, f, v.curr);
    if r == EXPIRED { assert w.q[ACTIVE] == v.q[ACTIVE]; }
  }

  /** The search goes over to the next occupied list. */
  lemma SkipStep(v: View, f: Filter, r: Role, k: nat, i: nat)
    requires v.Shaped() && k <= i <= MAX_PRIO && (forall j :: k <= j < i ==> v.q[r][j] == [])
    ensures i < MAX_PRIO ==> Beyond(v, f, r, k) == Rest(v, f, r, i, |v.q[r][i]|)
    ensures i == MAX_PRIO ==> Beyond(v, f, r, k) == if r == EXPIRED then Beyond(v, f, ACTIVE, 0) else []
  {
    hide CanMigrate, Walk;
    WalkEmpty(v.q[r], k, i, f, v.curr);
    if i < MAX_PRIO {
      var q := v.q[r][i];
      assert q[..|q|] == q;
    }
  }

  // ---- what a candidate is ---------------------------------------------------------------------------

  lemma {:induction false} WalkHas(q: seq<Tid>, f: Filter, curr: Tid, t: Tid)
    ensures t in Walk(q, f, curr) <==> t in q && CanMigrate(f, curr, t)
  {
    if q != [] {
      WalkHas(q[..|q| - 1], f, curr, t);
      assert t in q <==> t in q[..|q| - 1] || t == q[|q| - 1];
    }
  }

  lemma {:induction false} WalkFromHas(qs: Queues, k: nat, f: Filter, curr: Tid, t: Tid)
    requires k <= |qs|
    ensures t in WalkFrom(qs, k, f, curr) <==> CanMigrate(f, curr, t) && exists j :: k <= j < |qs| && t in qs[j]
    decreases |qs| - k
  {
    if k < |qs| {
      WalkHas(qs[k], f, curr, t);
      WalkFromHas(qs, k + 1, f, curr, t);
    }
  }

  /** The candidates are exactly the tasks that wait in the active or expired array, do not
      run, have been off the processor for longer than cache_decay_ticks and may run on the
      target; none of them is SHORT or overdue. */
  lemma CandidateIff(v: View, f: Filter, t: Tid)
    requires v.Inv()
    ensures t in Candidates(v, f) <==>
              && t in v.rec && (v.In(ACTIVE, t) || v.In(EXPIRED, t)) && t != v.curr
              && t in f.traits && f.traits[t].sleptFor > f.decay && f.cpu in f.traits[t].allowed
    ensures t in Candidates(v, f) ==> Movable(v, t) && !v.rec[t].policy.Short?
  {
    WalkFromHas(v.q[EXPIRED], 0, f, v.curr, t);
    WalkFromHas(v.q[ACTIVE], 0, f, v.curr, t);
    if j :| 0 <= j < MAX_PRIO && t in v.q[EXPIRED][j] { QueuedHome(v, EXPIRED, j, t); }
    if j :| 0 <= j < MAX_PRIO && t in v.q[ACTIVE][j] { QueuedHome(v, ACTIVE, j, t); }
  }

  // ---- their order -------------------------------------------------------------------------------------

  /** One list is walked from its tail to its head. */
  lemma {:induction false} WalkOrder(q: seq<Tid>, f: Filter, curr: Tid, i: nat, j: nat)
    requires Distinct(q) && i < j < |Walk(q, f, curr)|
    ensures var w := Walk(q, f, curr); w[i] in q && w[j] in q && IndexOf(q, w[j]) < IndexOf(q, w[i])
  {
    var w, n := Walk(q, f, curr), |q| - 1;
    var r, d := Walk(q[..n], f, curr), if CanMigrate(f, curr, q[n]) then 1 else 0;
    PrefixDistinct(q, n);
    assert w[j] == r[j - d];
    WalkHas(q[..n], f, curr, w[j]);
    PrefixIndex(q, n, w[j]);
    if i < d {
      if w[j] == q[n] { DistinctLast(q, q[n]); }
      BeforeLast(q, q[n], w[j]);
    } else {
      WalkOrder(q[..n], f, curr, i - d, j - d);
      PrefixIndex(q, n, w[i]);
    }
  }

  /** The lists are walked in the order of their priorities. */
  lemma {:induction false} WalkFromOrder(qs: Queues, k: nat, f: Filter, curr: Tid, i: nat, j: nat)
    returns (x: nat, y: nat)
    requires k <= |qs| && i < j < |WalkFrom(qs, k, f, curr)| && forall l :: 0 <= l < |qs| ==> Distinct(qs[l])
    ensures var w := WalkFrom(qs, k, f, curr);
            && k <= x <= y < |qs| && w[i] in qs[x] && w[j] in qs[y]
            && (x == y ==> IndexOf(qs[x], w[j]) < IndexOf(qs[x], w[i]))
    decreases |qs| - k
  {
    var w, a, b := WalkFrom(qs, k, f, curr), Walk(qs[k], f, curr), WalkFrom(qs, k + 1, f, curr);
    if j < |a| {
      WalkOrder(qs[k], f, curr, i, j);
      x, y := k, k;
    } else if i >= |a| {
      x, y := WalkFromOrder(qs, k + 1, f, curr, i - |a|, j - |a|);
    } else {
      WalkHas(qs[k], f, curr, a[i]);
      assert w[j] == b[j - |a|];
      WalkFromHas(qs, k + 1, f, curr, w[j]);
      x := k;
      y :| k + 1 <= y < |qs| && w[j] in qs[y];
    }
  }

  /** a stands before b in the order of the search: expired tasks before active ones, better
      priorities first, and within a list from the tail on. */
  ghost predicate SearchedFirst(v: View, a: Tid, b: Tid)
    requires v.Shaped() && a in v.rec && b in v.rec
  {
    || (v.In(EXPIRED, a) && v.In(ACTIVE, b))
    || exists r: Role :: v.In(r, a) && v.In(r, b)
         && (v.rec[a].prio < v.rec[b].prio
             || (v.rec[a].prio == v.rec[b].prio
                 && IndexOf(v.q[r][v.rec[a].prio], b) < IndexOf(v.q[r][v.rec[a].prio], a)))
  }

  lemma CandidateOrder(v: View, f: Filter, i: nat, j: nat)
    requires v.Inv() && i < j < |Candidates(v, f)|
    ensures var c := Candidates(v, f); c[i] in v.rec && c[j] in v.rec && SearchedFirst(v, c[i], c[j])
  {
    hide View.Inv, CanMigrate;
    InvShaped(v);
    var c, e, a := Candidates(v, f), WalkFrom(v.q[EXPIRED], 0, f, v.curr), WalkFrom(v.q[ACTIVE], 0, f, v.curr);
    if j < |e| {
      RoleOrder(v, EXPIRED, f, i, j);
    } else if i >= |e| {
      RoleOrder(v, ACTIVE, f, i - |e|, j - |e|);
    } else {
      assert c[j] == a[j - |e|];
      WalkedIn(v, EXPIRED, f, c[i]);
      WalkedIn(v, ACTIVE, f, c[j]);
    }
  }

  lemma WalkedIn(v: View, r: Role, f: Filter, t: Tid)
    requires v.Inv() && t in WalkFrom(v.q[r], 0, f, v.curr)
    ensures t in v.rec && v.In(r, t)
  {
    WalkFromHas(v.q[r], 0, f, v.curr, t);
    var k :| 0 <= k < MAX_PRIO && t in v.q[r][k];
    QueuedHome(v, r, k, t);
  }

  lemma RoleOrder(v: View, r: Role, f: Filter, i: nat, j: nat)
    requires v.Inv() && i < j < |WalkFrom(v.q[r], 0, f, v.curr)|
    ensures var c := WalkFrom(v.q[r], 0, f, v.curr); c[i] in v.rec && c[j] in v.rec && SearchedFirst(v, c[i], c[j])
  {
    var c := WalkFrom(v.q[r], 0, f, v.curr);
    forall k | 0 <= k < MAX_PRIO ensures Distinct(v.q[r][k]) { ListDistinct(v, r, k); }
    var x, y := WalkFromOrder(v.q[r], 0, f, v.curr, i, j);
    QueuedHome(v, r, x, c[i]);
    QueuedHome(v, r, y, c[j]);
    assert v.In(r, c[i]) && v.In(r, c[j]);
  }

  // ---- on two runqueues -------------------------------------------------------------------------------

  /** A task that is off the queues leaves the runqueue for good. */
  lemma SoundForget(v: View, arrays: seq<PrioArray>, active: nat, nr: int, p: Tid)
    requires Sound(v, arrays, active, nr) && p in v.rec && !v.Queued(p) && p != v.curr && p != v.idle
    ensures var w := v.(rec := v.rec - {p});
            && v.Shaped() && w.Shaped() && active < 2 && Sound(w, arrays, active, nr)
            && forall t :: t in w.rec ==> BackPointer(w, active, t) == BackPointer(v, active, t)
  {
    hide Agree, RecOk, BackPointer;
    ForgetInv(v, p);
    AgreeActive(v.q, arrays, active, nr);
    ForgetBack(v, active, p);
  }

  lemma AgreeActive(q: seq<Queues>, arrays: seq<PrioArray>, active: nat, nr: int)
    requires Agree(q, arrays, active, nr)
    ensures active < 2
  {
  }

  lemma ForgetBack(v: View, active: nat, p: Tid)
    requires v.Shaped() && active < 2 && p != v.curr && p != v.idle
    ensures var w := v.(rec := v.rec - {p});
            w.Shaped() && forall t :: t in w.rec ==> BackPointer(w, active, t) == BackPointer(v, active, t)
  {
  }

  /** A task from elsewhere is queued at the tail of the active array. */
  lemma SoundJoin(v: View, arrays: seq<PrioArray>, active: nat, nr: int, p: Tid, x: Rec)
    requires Sound(v, arrays, active, nr) && p !in v.rec && RecOk(x) && !x.policy.Short?
    ensures var w := ToTail(v, p, x, ACTIVE);
            && v.Shaped() && active < 2 && 0 <= x.prio < MAX_PRIO && Accepts(arrays, active, x.prio)
            && Sound(w, Enqueue(arrays, active, p, x.prio), active, nr + 1)
            && BackPointer(w, active, p) == Some(active)
            && forall t :: t in v.rec ==> BackPointer(w, active, t) == BackPointer(v, active, t)
  {
    hide View.Inv, Sound, BackPointer, ToTail, View.RoleOf, Accepts, Enqueue;
    SoundNewcomer(v, arrays, active, nr, p, x);
    PrioRange(x);
    var u := SetRec(v, p, x);
    SoundEnqueue(u, arrays, active, nr, p, x, ACTIVE);
    ToTailOver(v, p, x, x, ACTIVE);
  }

  /** dequeue_task and nr_running-- for a task that leaves the runqueue. */
  method Release(rq: Runqueue, p: Task)
    requires rq.Valid() && rq.Known(p) && Movable(rq.view, p.id)
    modifies rq`arrays, rq`nrRunning, rq`view, rq`task, p`onArray
    ensures rq.Valid() && rq.view == Give(old(rq.view), p.id)
    ensures rq.task == old(rq.task) - {p.id} && p.onArray.None? && p.s == old(p.s)
    ensures rq.nrRunning == old(rq.nrRunning) - 1
  {
    hide View.Inv, View.Shaped, View.Queued, View.RoleOf, BackPointer, Sound, RecOk, Erase, Movable, Give,
         Runqueue.Valid;
    MovableFits(rq.view, p.id);
    TaskFacts(rq, p);
    rq.Deactivate(p);
    Forget(rq, p);
  }

  method Forget(rq: Runqueue, p: Task)
    requires rq.Valid() && rq.Known(p) && p.onArray.None? && p.id != rq.view.curr && p.id != rq.view.idle
    modifies rq`task, rq`view
    ensures rq.Valid() && rq.task == old(rq.task) - {p.id}
    ensures rq.view == old(rq.view).(rec := old(rq.view).rec - {p.id})
  {
    hide View.Inv, View.Shaped, View.Queued, BackPointer, Sound;
    TaskFacts(rq, p);
    SoundForget(rq.view, rq.arrays, rq.active, rq.nrRunning, p.id);
    rq.task := rq.task - {p.id};
    rq.view := rq.view.(rec := rq.view.rec - {p.id});
  }

  /** nr_running++ and enqueue_task for a task that joins the runqueue. */
  method Adopt(rq: Runqueue, p: Task)
    requires rq.Valid() && p.id !in rq.task && RecOk(p.s) && !p.s.policy.Short? && p.onArray.None?
    modifies rq`arrays, rq`nrRunning, rq`view, rq`task, p`onArray
    ensures rq.Valid() && rq.view == ToTail(old(rq.view), p.id, p.s, ACTIVE)
    ensures rq.task == old(rq.task)[p.id := p] && rq.nrRunning == old(rq.nrRunning) + 1
  {
    hide View.Inv, View.Shaped, View.Queued, View.RoleOf, BackPointer, Sound, RecOk, ToTail, Accepts, Enqueue;
    SoundJoin(rq.view, rq.arrays, rq.active, rq.nrRunning, p.id, p.s);
    rq.nrRunning := rq.nrRunning + 1;
    rq.arrays := Enqueue(rq.arrays, rq.active, p.id, p.s.prio);
    p.onArray := Some(rq.active);
    rq.Register(p, ToTail(rq.view, p.id, p.s, ACTIVE));
  }

  lemma Separate(src: Runqueue, dst: Runqueue)
    requires src.Valid() && dst.Valid() && src.task.Keys !! dst.task.Keys
    ensures src != dst && src.task.Values !! dst.task.Values
  {
    assert src.curr in src.task && dst.curr in dst.task;
  }

  /** The two runqueues and the tasks on them. */
  ghost predicate Pair(src: Runqueue, dst: Runqueue)
    reads src, dst, src.task.Values, dst.task.Values
  {
    src.Valid() && dst.Valid() && src.task.Keys !! dst.task.Keys
  }

  lemma NotMine(rq: Runqueue, p: Task)
    requires rq.Valid() && p.id !in rq.task
    ensures p !in rq.task.Values
  {
  }

  /** One task changes runqueues. */
  method MoveTask(src: Runqueue, dst: Runqueue, p: Task)
    requires Pair(src, dst) && src.Known(p) && Movable(src.view, p.id)
    modifies src`arrays, src`nrRunning, src`view, src`task
    modifies dst`arrays, dst`nrRunning, dst`view, dst`task, dst.task.Values, p
    ensures Pair(src, dst) && p.s == old(p.s) == old(src.view).rec[p.id]
    ensures src.view == Give(old(src.view), p.id) && dst.view == Take(old(dst.view), p.id, p.s)
    ensures src.task == old(src.task) - {p.id} && dst.task == old(dst.task)[p.id := p]
    ensures src.nrRunning == old(src.nrRunning) - 1 && dst.nrRunning == old(dst.nrRunning) + 1
  {
    hide View.Inv, View.Shaped, View.Queued, BackPointer, Sound, RecOk, Movable, Give, ToTail, Runqueue.Valid;
    Separate(src, dst);
    MovableFits(src.view, p.id);
    TaskFacts(src, p);
    CurrFacts(dst);
    Release(src, p);
    NotMine(src, p);
    Adopt(dst, p);
    Separate(src, dst);
    CurrFacts(dst);
    var current := dst.task[dst.curr];
    if p.s.prio < current.s.prio {
      dst.ReschedTask(current);
    }
  }

  // ---- the whole search -----------------------------------------------------------------------------

  /** A runqueue at one moment. */
  datatype Snap = Snap(view: View, task: map<Tid, Task>, nr: int)

  ghost function Now(rq: Runqueue): Snap
    reads rq
  {
    Snap(rq.view, rq.task, rq.nrRunning)
  }

  /** From s0 and d0 the tasks ms have been moved, in this order: their fields are what they
      were, no task has been lost or copied, and the counters agree. */
  ghost predicate Moved(s0: Snap, d0: Snap, ms: seq<Tid>, s: Snap, d: Snap) {
    && MovedLists(s0.view, d0.view, ms, s.view, d.view)
    && MovedTasks(s0.task, d0.task, ms, s.task, d.task)
    && s.nr == s0.nr - |ms| && d.nr == d0.nr + |ms|
  }

  ghost predicate MovedLists(v0: View, u0: View, ms: seq<Tid>, v: View, u: View) {
    && v0.Shaped() && u0.Shaped() && v0.curr !in ms && v0.idle !in ms && v.Inv()
    && (forall p :: p in ms ==> p in v0.rec && 0 <= v0.rec[p].prio < MAX_PRIO && !v0.rec[p].policy.Short?)
    && v == GiveAll(v0, ms) && u == TakeAll(u0, ms, v0.rec)
    && v.rec == v0.rec - Members(ms)
  }

  ghost predicate MovedTasks(s0: map<Tid, Task>, d0: map<Tid, Task>, ms: seq<Tid>,
                             s: map<Tid, Task>, d: map<Tid, Task>) {
    (forall p :: p in ms ==> p in s0) && s == s0 - Members(ms) && d == d0 + Picked(ms, s0)
  }

  ghost function Picked(ms: seq<Tid>, task: map<Tid, Task>): map<Tid, Task> {
    map p | p in ms && p in task :: task[p]
  }

  ghost function Members(ms: seq<Tid>): set<Tid> { set p | p in ms }

  lemma MovedStep(s0: Snap, d0: Snap, ms: seq<Tid>, s: Snap, d: Snap, p: Tid)
    requires Moved(s0, d0, ms, s, d) && Movable(s.view, p) && p in s.task
    ensures s.view.Shaped() && d.view.Shaped() && p != s.view.idle && RecOk(s.view.rec[p])
    ensures Moved(s0, d0, ms + [p],
                  Snap(Give(s.view, p), s.task - {p}, s.nr - 1),
                  Snap(Take(d.view, p, s.view.rec[p]), d.task[p := s.task[p]], d.nr + 1))
  {
    hide MovedLists, MovedTasks, View.Inv, Take, Give, RecOk, Movable;
    ListsStep(s0.view, d0.view, ms, s.view, d.view, p);
    TasksStep(s0.task, d0.task, ms, s.task, d.task, p);
  }

  lemma ListsStep(v0: View, u0: View, ms: seq<Tid>, v: View, u: View, p: Tid)
    requires MovedLists(v0, u0, ms, v, u) && Movable(v, p)
    ensures v.Shaped() && u.Shaped() && p != v.curr && p != v.idle && p in v.rec && RecOk(v.rec[p])
    ensures MovedLists(v0, u0, ms + [p], Give(v, p), Take(u, p, v.rec[p]))
  {
    hide View.Inv, Take, Give, View.In, RecOk;
    MovableFits(v, p);
    PrioRange(v.rec[p]);
    GiveInv(v, p);
    var ns := ms + [p];
    assert ns[..|ns| - 1] == ms;
    SameAll(u0, ms, ns[..|ns| - 1], v0.rec);
    assert Members(ns) == Members(ms) + {p};
  }

  lemma TasksStep(s0: map<Tid, Task>, d0: map<Tid, Task>, ms: seq<Tid>, s: map<Tid, Task>, d: map<Tid, Task>, p: Tid)
    requires MovedTasks(s0, d0, ms, s, d) && p in s
    ensures MovedTasks(s0, d0, ms + [p], s - {p}, d[p := s[p]])
  {
    assert Members(ms + [p]) == Members(ms) + {p};
  }

  lemma TasksWithin(s0: map<Tid, Task>, d0: map<Tid, Task>, ms: seq<Tid>, s: map<Tid, Task>, d: map<Tid, Task>)
    requires MovedTasks(s0, d0, ms, s, d)
    ensures s.Values <= s0.Values && d.Values <= d0.Values + s0.Values
  {
  }

  lemma PrioRange(x: Rec)
    requires RecOk(x)
    ensures 0 <= x.prio < MAX_PRIO
  {
  }

  lemma SameAll(u: View, ms: seq<Tid>, ns: seq<Tid>, rec: map<Tid, Rec>)
    requires u.Shaped() && ms == ns && forall p :: p in ms ==> p in rec && 0 <= rec[p].prio < MAX_PRIO
    ensures TakeAll(u, ms, rec) == TakeAll(u, ns, rec)
  {
  }

  /** The array of a role as the search reads it. */
  lemma ArrayOf(rq: Runqueue, r: Role, k: nat)
    requires rq.Valid() && k <= MAX_PRIO
    ensures rq.view.Inv() && rq.view.Shaped() && rq.active < 2 && |rq.arrays| == 4 && rq.view.curr == rq.curr
    ensures var a := rq.arrays[Slot(rq.active, r)];
            && a.queue == rq.view.q[r] && |a.queue| == MAX_PRIO && |a.bitmap| == MAX_PRIO + 1 && a.bitmap[MAX_PRIO]
            && (a.nrActive > 0 <==> !Vacant(a.queue)) && a.nrActive >= 0
            && var i := FirstBit(a.bitmap, k);
               && (forall j :: k <= j < i ==> a.queue[j] == []) && (i < MAX_PRIO ==> a.queue[i] != [])
  {
    RoleIndex(rq.view, rq.arrays, rq.active, rq.nrRunning, r);
  }

  /** A task that may not be moved is passed over. */
  lemma StayStep(v: View, f: Filter, r: Role, k: nat, i: nat)
    requires v.Shaped() && k < MAX_PRIO && i < |v.q[r][k]| && !CanMigrate(f, v.curr, v.q[r][k][i])
    ensures Rest(v, f, r, k, i + 1) == Rest(v, f, r, k, i)
  {
    WalkTail(v.q[r][k], f, v.curr, i);
  }

  lemma RestNone(v: View, f: Filter, r: Role, k: nat)
    requires v.Shaped() && k < MAX_PRIO
    ensures Rest(v, f, r, k, 0) == Beyond(v, f, r, k + 1)
  {
  }

  function Limit(n: int, idle: bool): int { if idle then 1 else n }

  /** How far the search has come: c are all candidates, ms have been moved, and `rest` are
      left. */
  ghost predicate Searching(c: seq<Tid>, ms: seq<Tid>, rest: seq<Tid>, limit: int) {
    c == ms + rest && |ms| < limit
  }

  /** One more task changes runqueues. */
  method MoveNext(src: Runqueue, dst: Runqueue, p: Tid, ghost s0: Snap, ghost d0: Snap, ghost ms: seq<Tid>)
    requires Pair(src, dst) && Moved(s0, d0, ms, Now(src), Now(dst)) && Movable(src.view, p)
    modifies src`arrays, src`nrRunning, src`view, src`task, s0.task.Values
    modifies dst`arrays, dst`nrRunning, dst`view, dst`task, d0.task.Values
    ensures Pair(src, dst) && Moved(s0, d0, ms + [p], Now(src), Now(dst))
    ensures old(src.view).Shaped() && p != old(src.view).curr && p != old(src.view).idle
    ensures src.view == Give(old(src.view), p)
  {
    hide View.Inv, MovedLists, MovedTasks, Movable, Give, Take, Runqueue.Valid, RecOk;
    MovableFits(src.view, p);
    CurrFacts(src);
    TaskAt(src, p);
    MovedStep(s0, d0, ms, Now(src), Now(dst), p);
    TasksWithin(s0.task, d0.task, ms, src.task, dst.task);
    MoveTask(src, dst, src.task[p]);
  }

  /** skip_queue: one list, from its tail to its head. */
  method WalkList(src: Runqueue, dst: Runqueue, f: Filter, r: Role, idx: nat, n: int, idle: bool,
                  ghost s0: Snap, ghost d0: Snap, ghost ms: seq<Tid>, ghost c: seq<Tid>, ghost total: int)
    returns (left: int, done: bool, ghost now: seq<Tid>)
    requires Pair(src, dst) && (r == ACTIVE || r == EXPIRED) && idx < MAX_PRIO && src.view.Shaped()
    requires Searching(c, ms, Rest(src.view, f, r, idx, |src.view.q[r][idx]|), total) && |ms| + Limit(n, idle) == total
    requires Moved(s0, d0, ms, Now(src), Now(dst))
    modifies src`arrays, src`nrRunning, src`view, src`task, s0.task.Values
    modifies dst`arrays, dst`nrRunning, dst`view, dst`task, d0.task.Values
    ensures Pair(src, dst) && Moved(s0, d0, now, Now(src), Now(dst)) && src.view.Shaped()
    ensures Standing(src.view, f, c, now, r, idx + 1, left, idle, done, total)
  {
    hide View.Inv, Moved, Movable, Rest, Beyond, Give, CanMigrate, Runqueue.Valid;
    left, done, now := n, false, ms;
    ArrayOf(src, r, idx);
    var i := |src.arrays[Slot(src.active, r)].queue[idx]|;
    while i > 0
      invariant Pair(src, dst) && Moved(s0, d0, now, Now(src), Now(dst)) && src.view.Shaped()
      invariant 0 <= i <= |src.view.q[r][idx]| && |now| + Limit(left, idle) == total
      invariant Searching(c, now, Rest(src.view, f, r, idx, i), total)
    {
      ArrayOf(src, r, idx);
      var tmp := src.arrays[Slot(src.active, r)].queue[idx][i - 1];
      i := i - 1;
      if CanMigrate(f, src.curr, tmp) {
        MoveStep(src.view, f, r, idx, i);
        MoveNext(src, dst, tmp, s0, d0, now);
        now := now + [tmp];
        if idle {
          done := true;
          return;
        }
        left := left - 1;
        if left == 0 {
          done := true;
          return;
        }
      } else {
        StayStep(src.view, f, r, idx, i);
      }
    }
    RestNone(src.view, f, r, idx);
  }

  lemma StartStep(v: View, f: Filter, emptyExpired: bool)
    requires v.Shaped() && (emptyExpired ==> Vacant(v.q[EXPIRED]))
    ensures Candidates(v, f) == Beyond(v, f, if emptyExpired then ACTIVE else EXPIRED, 0)
  {
    if emptyExpired { WalkEmpty(v.q[EXPIRED], 0, MAX_PRIO, f, v.curr); }
  }

  lemma MovedNone(s: Snap, d: Snap)
    requires s.view.Inv() && d.view.Inv()
    ensures Moved(s, d, [], s, d)
  {
  }

  /** The search stands in front of list idx of role r, or has moved as many as it may. */
  ghost predicate Standing(v: View, f: Filter, c: seq<Tid>, ms: seq<Tid>, r: Role, idx: nat, left: int, idle: bool,
                           done: bool, total: int) {
    && (r == ACTIVE || r == EXPIRED) && idx <= MAX_PRIO && v.Shaped()
    && |ms| + (if done then 0 else Limit(left, idle)) == total
    && if done then ms <= c else Searching(c, ms, Beyond(v, f, r, idx), total)
  }

  lemma StandStart(v: View, f: Filter, r: Role, n: int, idle: bool)
    requires v.Shaped() && (r == EXPIRED || (r == ACTIVE && Vacant(v.q[EXPIRED]))) && Limit(n, idle) > 0
    ensures Standing(v, f, Candidates(v, f), [], r, 0, n, idle, false, Limit(n, idle))
  {
    StartStep(v, f, r == ACTIVE);
  }

  lemma StandSkip(v: View, f: Filter, c: seq<Tid>, ms: seq<Tid>, r: Role, was: nat, idx: nat, left: int,
                  idle: bool, total: int)
    requires Standing(v, f, c, ms, r, was, left, idle, false, total) && was <= idx <= MAX_PRIO
    requires forall j :: was <= j < idx ==> v.q[r][j] == []
    ensures |ms| + Limit(left, idle) == total && (r == ACTIVE || r == EXPIRED)
    ensures idx < MAX_PRIO ==> v.Shaped() && Searching(c, ms, Rest(v, f, r, idx, |v.q[r][idx]|), total)
    ensures idx == MAX_PRIO && r == EXPIRED ==> Standing(v, f, c, ms, ACTIVE, 0, left, idle, false, total)
    ensures idx == MAX_PRIO && r == ACTIVE ==> ms == c && |ms| < total
  {
    hide Beyond, Rest;
    SkipStep(v, f, r, was, idx);
  }

  lemma BothShaped(src: Runqueue, dst: Runqueue)
    requires Pair(src, dst)
    ensures src.view.Inv() && src.view.Shaped() && |src.arrays| == 4 && src.active < 2
    ensures src.arrays[1 - src.active].nrActive != 0 || Vacant(src.view.q[EXPIRED])
    ensures Moved(Now(src), Now(dst), [], Now(src), Now(dst))
  {
    hide View.Inv, Moved, Runqueue.Valid;
    ArrayOf(src, EXPIRED, 0);
    ArrayOf(dst, EXPIRED, 0);
    MovedNone(Now(src), Now(dst));
  }

  lemma StandEnd(v: View, f: Filter, c: seq<Tid>, ms: seq<Tid>, r: Role, idx: nat, left: int, idle: bool, total: int)
    requires Standing(v, f, c, ms, r, idx, left, idle, true, total)
    ensures ms == if |c| < total then c else c[..total]
  {
  }

  /** skip_bitmap: on to the next occupied list, or from the expired to the active array.
      The search is over when `done` or when nothing is left. */
  method NextList(src: Runqueue, dst: Runqueue, f: Filter, r: Role, idx: nat, n: int, idle: bool,
                  ghost s0: Snap, ghost d0: Snap, ghost ms: seq<Tid>, ghost c: seq<Tid>, ghost total: int)
    returns (role: Role, k: nat, left: int, done: bool, over: bool, ghost now: seq<Tid>)
    requires Pair(src, dst) && Standing(src.view, f, c, ms, r, idx, n, idle, false, total)
    requires Moved(s0, d0, ms, Now(src), Now(dst))
    modifies src`arrays, src`nrRunning, src`view, src`task, s0.task.Values
    modifies dst`arrays, dst`nrRunning, dst`view, dst`task, d0.task.Values
    ensures Pair(src, dst) && Moved(s0, d0, now, Now(src), Now(dst)) && k <= MAX_PRIO
    ensures if over then now == c && |now| < total
            else Standing(src.view, f, c, now, role, k, left, idle, done, total)
                 && ((role == r && k > idx) || (role == ACTIVE && r == EXPIRED))
  {
    hide View.Inv, Moved, Beyond, Rest, Runqueue.Valid, Searching;
    role, left, done, over, now := r, n, false, false, ms;
    ArrayOf(src, r, idx);
    k := FirstBit(src.arrays[Slot(src.active, r)].bitmap, idx);
    StandSkip(src.view, f, c, ms, r, idx, k, n, idle, total);
    if k == MAX_PRIO {
      if r == EXPIRED {
        role, k := ACTIVE, 0;
      } else {
        over := true;
      }
      return;
    }
    left, done, now := WalkList(src, dst, f, r, k, n, idle, s0, d0, ms, c, total);
    k := k + 1;
  }

  /** The part of load_balance from new_array on: it pulls the first candidates, expired
      tasks first, and at most Limit(n, idle) of them. */
  method Pull(src: Runqueue, dst: Runqueue, f: Filter, n: int, idle: bool) returns (ghost ms: seq<Tid>)
    requires Pair(src, dst) && Limit(n, idle) > 0
    modifies src`arrays, src`nrRunning, src`view, src`task, src.task.Values
    modifies dst`arrays, dst`nrRunning, dst`view, dst`task, dst.task.Values
    ensures Pair(src, dst) && Pulled(old(Now(src)), old(Now(dst)), ms, Now(src), Now(dst), f, Limit(n, idle))
  {
    hide View.Inv, View.Shaped, Moved, Candidates, Runqueue.Valid, Standing, Pair;
    BothShaped(src, dst);
    ghost var s0, d0, total := Now(src), Now(dst), Limit(n, idle);
    var r: Role := if src.arrays[1 - src.active].nrActive != 0 then EXPIRED else ACTIVE;
    StandStart(src.view, f, r, n, idle);
    ghost var c := Candidates(src.view, f);
    var idx: nat, left, done, over := 0, n, false, false;
    ms := [];
    while !done && !over
      invariant Pair(src, dst) && Moved(s0, d0, ms, Now(src), Now(dst)) && idx <= MAX_PRIO
      invariant if over then ms == c && |ms| < total else Standing(src.view, f, c, ms, r, idx, left, idle, done, total)
      decreases !over, if r == EXPIRED then 1 else 0, MAX_PRIO - idx
    {
      r, idx, left, done, over, ms := NextList(src, dst, f, r, idx, left, idle, s0, d0, ms, c, total);
    }
    if !over {
      StandEnd(src.view, f, c, ms, r, idx, left, idle, total);
    }
  }

  // ---- which runqueue to pull from, and how much ------------------------------------------------------

  /** The load of another runqueue: the smaller of its length now and last time, or its
      length now for an idle processor. */
  function Load(nr: int, prev: int, idle: bool): int { if idle || nr < prev then nr else prev }

  /** The own length counts at its larger value. */
  function OwnLoad(nr: int, prev: int, idle: bool): int { if idle || nr > prev then nr else prev }

  function Loads(nrs: seq<int>, prev: seq<int>, idle: bool): (ls: seq<int>)
    requires |nrs| == |prev|
  {
    seq(|nrs|, i requires 0 <= i < |nrs| => Load(nrs[i], prev[i], idle))
  }

  /** b is the first of the other runqueues with the largest load, which is more than one. */
  ghost predicate IsBusiest(ls: seq<int>, me: nat, b: nat) {
    && b < |ls| && b != me && ls[b] > 1
    && forall i :: 0 <= i < |ls| && i != me ==> ls[i] <= ls[b] && (i < b ==> ls[i] < ls[b])
  }

  /** Whether tasks are pulled from a runqueue with `length` tasks and the given load. */
  predicate Worth(load: int, length: int, own: int, idle: bool) {
    (idle || CDiv(load - own, 2) >= CDiv(load + 3, 4)) && length > own + 1
  }

  /** The first of the busiest other runqueues, whose load is more than one, is b: for an idle
      processor by the lengths now, and otherwise by what each length has been at least, now
      and last time. There is none if b is -1. */
  ghost predicate Busiest(nrs: seq<int>, prev: seq<int>, me: nat, idle: bool, b: int, load: int)
    requires |nrs| == |prev|
  {
    if b < 0 then forall i :: 0 <= i < |nrs| && i != me ==> nrs[i] <= 1 || (!idle && prev[i] <= 1)
    else
      && b < |nrs| && b != me && load > 1
      && load <= nrs[b] && (load == nrs[b] || (!idle && load == prev[b])) && (idle || load <= prev[b])
      && forall i :: 0 <= i < |nrs| && i != me ==>
           && (nrs[i] <= load || (!idle && prev[i] <= load))
           && (i < b ==> nrs[i] < load || (!idle && prev[i] < load))
  }

  lemma BusiestIs(nrs: seq<int>, prev: seq<int>, me: nat, idle: bool, b: int, load: int)
    requires |nrs| == |prev|
    requires var ls := Loads(nrs, prev, idle);
             if b < 0 then forall i :: 0 <= i < |ls| && i != me ==> ls[i] <= 1
             else IsBusiest(ls, me, b) && load == ls[b]
    ensures Busiest(nrs, prev, me, idle, b, load)
  {
    LoadAt(nrs, prev, idle);
  }

  function Most(a: int, b: int): int { if a < b then b else a }

  /** Whether a load warrants a pull for a busy processor that has had `own` tasks at most:
      from twice as many on, but for the odd number next to it when `own` is even. */
  predicate Enough(load: int, own: int) {
    if own % 2 == 0 then load >= 2 * own && load != 2 * own + 1 else load >= 2 * own + 1
  }

  /** What a busy processor does, by lengths and saved lengths alone: it pulls from the
      busiest of the others if and only if its load is enough. Then no more tasks move than
      half of what that one had more, both now and last time. */
  ghost predicate StablePull(nrs: seq<int>, prev: seq<int>, me: nat, source: int, limit: int)
    requires me < |nrs| == |prev|
  {
    var own := Most(nrs[me], prev[me]);
    if source < 0 then
      && (forall b, load :: b >= 0 && Busiest(nrs, prev, me, false, b, load) ==> !Enough(load, own))
      && forall i :: 0 <= i < |nrs| && i != me ==> nrs[i] < 2 * own + 2 || prev[i] < 2 * own + 2
    else
      && source < |nrs| && (exists load ::
            Busiest(nrs, prev, me, false, source, load) && Enough(load, own) && limit == (load - own) / 2)
      && nrs[source] >= 2 * own && prev[source] >= 2 * own
      && 0 < limit && 2 * limit <= nrs[source] - own && 2 * limit <= prev[source] - own
  }

  lemma Warranted(load: int, own: int)
    requires own >= 0 && load > 1
    ensures CDiv(load - own, 2) >= CDiv(load + 3, 4) <==> Enough(load, own)
    ensures Enough(load, own) ==> load > own + 1 && load >= 2 * own
    ensures Enough(load, own) ==> 0 < CDiv(load - own, 2) == (load - own) / 2 && 2 * CDiv(load - own, 2) <= load - own
    ensures load >= 2 * own + 2 ==> Enough(load, own)
  {
    var n, r := (load + 3) / 4, (load + 3) % 4;
    assert load == 4 * n + r - 3;
    if load >= own {
      var m, k := (load - own) / 2, (load - own) % 2;
      assert load - own == 2 * m + k;
      var c, d := own / 2, own % 2;
      assert own == 2 * c + d;
    }
  }

  /** Only one runqueue is the first of the busiest. */
  lemma SameBusiest(nrs: seq<int>, prev: seq<int>, me: nat, a: int, x: int, b: int, y: int)
    requires |nrs| == |prev| && a >= 0 && b >= 0
    requires Busiest(nrs, prev, me, false, a, x) && Busiest(nrs, prev, me, false, b, y)
    ensures a == b && x == y
  {
  }

  /** A busy processor decides by what the lengths have been for some time. */
  lemma BusyDecides(nrs: seq<int>, prev: seq<int>, me: nat, s: int, imbalance: int)
    requires me < |nrs| == |prev| && nrs[me] >= 0 && s < |nrs| && Decides(nrs, prev, me, false, s, imbalance)
    ensures StablePull(nrs, prev, me, s, imbalance)
  {
    hide CDiv, Enough, Busiest;
    LoadAt(nrs, prev, false);
    var ls, own := Loads(nrs, prev, false), OwnLoad(nrs[me], prev[me], false);
    assert own == Most(nrs[me], prev[me]);
    if s >= 0 {
      Warranted(ls[s], own);
      BusiestIs(nrs, prev, me, false, s, ls[s]);
    } else {
      var b := BusiestOf(ls, me, |ls|);
      assert ls[..|ls|] == ls;
      NoneWarranted(nrs, prev, me, b);
    }
  }

  lemma NoneWarranted(nrs: seq<int>, prev: seq<int>, me: nat, b: int)
    requires me < |nrs| == |prev| && nrs[me] >= 0 && b < |nrs|
    requires var ls, own := Loads(nrs, prev, false), OwnLoad(nrs[me], prev[me], false);
             Longest(ls, me, b) && (b >= 0 ==> !Worth(ls[b], nrs[b], own, false))
    ensures StablePull(nrs, prev, me, -1, 0)
  {
    hide CDiv, Enough;
    LoadAt(nrs, prev, false);
    var ls, own := Loads(nrs, prev, false), OwnLoad(nrs[me], prev[me], false);
    if b >= 0 {
      Warranted(ls[b], own);
      BusiestIs(nrs, prev, me, false, b, ls[b]);
      forall c, load | c >= 0 && Busiest(nrs, prev, me, false, c, load) ensures !Enough(load, own) {
        SameBusiest(nrs, prev, me, b, ls[b], c, load);
      }
    }
  }

  /** The test is not monotone: with two tasks of its own a busy processor pulls from a
      runqueue that has had four tasks for some time, but not from one that has had five. */
  lemma FiveIsTooMany()
    ensures exists imbalance :: Decides([2, 4], [2, 4], 0, false, 1, imbalance)
    ensures forall s, imbalance :: s < 2 && Decides([2, 5], [2, 5], 0, false, s, imbalance) ==> s < 0
  {
    assert Decides([2, 4], [2, 4], 0, false, 1, 1);
    forall s, imbalance | s < 2 && Decides([2, 5], [2, 5], 0, false, s, imbalance) ensures s < 0 {
      BusyDecides([2, 5], [2, 5], 0, s, imbalance);
    }
  }

  /** s is the first of the longest other runqueues, if one of them has two tasks or more. */
  ghost predicate Longest(nrs: seq<int>, me: nat, s: int) {
    if s < 0 then forall i :: 0 <= i < |nrs| && i != me ==> nrs[i] <= 1 else IsBusiest(nrs, me, s)
  }

  /** ms is the first candidate, if there is one. */
  ghost predicate TakesFirst(v: View, f: Filter, ms: seq<Tid>) {
    v.Shaped() && var c := Candidates(v, f); ms == if c == [] then [] else [c[0]]
  }

  /** What an idle processor pulls: the first candidate of the first of the longest other
      runqueues, if that has two tasks or more. */
  ghost predicate IdlePull(rqs: seq<Snap>, me: nat, f: Filter, source: int, ms: seq<Tid>) {
    && source < |rqs| && Longest(Counts(rqs), me, source)
    && if source < 0 then ms == []
       else TakesFirst(rqs[source].view, f, ms) && forall p :: p in ms ==> p in rqs[source].task
  }

  /** Nothing is left to run when the outgoing task is off. */
  ghost predicate OneLeaves(v: View, signalPending: bool) { v.Shaped() && Empty(Leave(v, signalPending)) }

  ghost predicate Scheduled(v: View, w: View, signalPending: bool) {
    v.Shaped() && w == SchedSpec.Schedule(v, signalPending)
  }

  ghost function Counts(rqs: seq<Snap>): (nrs: seq<int>) { seq(|rqs|, i requires 0 <= i < |rqs| => rqs[i].nr) }

  ghost function Snaps(rqs: seq<Runqueue>): (s: seq<Snap>)
    reads rqs
    ensures |s| == |rqs| && forall i :: 0 <= i < |rqs| ==> s[i] == Now(rqs[i])
  {
    if rqs == [] then [] else [Now(rqs[0])] + Snaps(rqs[1..])
  }

  ghost function Lengths(rqs: seq<Runqueue>): (nrs: seq<int>)
    reads rqs
    ensures |nrs| == |rqs| && forall i :: 0 <= i < |rqs| ==> nrs[i] == rqs[i].nrRunning
  {
    if rqs == [] then [] else [rqs[0].nrRunning] + Lengths(rqs[1..])
  }

  lemma LoadAt(nrs: seq<int>, prev: seq<int>, idle: bool)
    requires |nrs| == |prev|
    ensures |Loads(nrs, prev, idle)| == |nrs|
    ensures forall i :: 0 <= i < |nrs| ==> Loads(nrs, prev, idle)[i] == Load(nrs[i], prev[i], idle)
  {
  }

  class Balancer {
    const rqs: seq<Runqueue>    // cpu_rq
    const me: nat               // this_cpu
    var prev: seq<int>          // this_rq->prev_nr_running

    ghost predicate Ready()
      reads this
    {
      me < |rqs| == |prev| && forall i, j :: 0 <= i < j < |rqs| ==> rqs[i] != rqs[j]
    }

    constructor (rqs: seq<Runqueue>, me: nat)
      requires me < |rqs| && forall i, j :: 0 <= i < j < |rqs| ==> rqs[i] != rqs[j]
      ensures Ready() && this.rqs == rqs && this.me == me
    {
      this.rqs, this.me := rqs, me;
      prev := seq(|rqs|, _ => 0);
    }

    /** The lockless search for the busiest runqueue; -1 is NULL. */
    method FindBusiest(idle: bool) returns (busiest: int, maxLoad: int)
      requires Ready()
      modifies this
      ensures Ready() && prev == Lengths(rqs) && -1 <= busiest < |rqs|
      ensures var ls := Loads(Lengths(rqs), old(prev), idle);
              if busiest == -1 then forall i :: 0 <= i < |ls| && i != me ==> ls[i] <= 1
              else busiest >= 0 && IsBusiest(ls, me, busiest) && maxLoad == ls[busiest]
      ensures Busiest(Lengths(rqs), old(prev), me, idle, busiest, maxLoad)
    {
      hide Lengths, Load, Loads;
      ghost var was, ls := prev, Loads(Lengths(rqs), prev, idle);
      LoadAt(Lengths(rqs), prev, idle);
      busiest, maxLoad := -1, 1;
      var i := 0;
      while i < |rqs|
        invariant 0 <= i <= |rqs| && |prev| == |rqs| && was == old(prev)
        invariant forall j :: 0 <= j < i ==> prev[j] == Lengths(rqs)[j]
        invariant forall j :: i <= j < |rqs| ==> prev[j] == was[j]
        invariant busiest == -1 || (0 <= busiest < i && busiest != me)
        invariant maxLoad == if busiest == -1 then 1 else ls[busiest]
        invariant maxLoad >= 1 && (busiest >= 0 ==> maxLoad > 1)
        invariant forall j :: 0 <= j < i && j != me ==> ls[j] <= maxLoad && (j < busiest ==> ls[j] < maxLoad)
      {
        var load := Load(rqs[i].nrRunning, prev[i], idle);
        assert load == ls[i];
        prev := prev[i := rqs[i].nrRunning];
        if load > maxLoad && i != me {
          busiest, maxLoad := i, load;
        }
        i := i + 1;
      }
      BusiestIs(Lengths(rqs), was, me, idle, busiest, maxLoad);
    }

    /** The decision: which runqueue to pull from, or -1, and the imbalance. */
    method Decide(idle: bool) returns (source: int, imbalance: int)
      requires Ready()
      modifies this
      ensures Ready() && prev == Lengths(rqs) && source < |rqs|
      ensures Decides(Lengths(rqs), old(prev), me, idle, source, imbalance)
    {
      hide IsBusiest, CDiv, Lengths, Load, Worth;
      ghost var ls := Loads(Lengths(rqs), prev, idle);
      var own := OwnLoad(rqs[me].nrRunning, prev[me], idle);
      var maxLoad;
      source, maxLoad := FindBusiest(idle);
      imbalance := CDiv(maxLoad - own, 2);
      OneBusiest(ls, me, source);
      if source == -1 {
        return;
      }
      WorthIf(maxLoad, rqs[source].nrRunning, own, idle);
      if !idle && imbalance < CDiv(maxLoad + 3, 4) {
        source := -1;
        return;
      }
      if rqs[source].nrRunning <= own + 1 {
        source := -1;
      }
    }

    /** Pull on the chosen runqueue. */
    method PullFrom(source: nat, n: int, idle: bool, f: Filter) returns (ghost ms: seq<Tid>)
      requires Ready() && source < |rqs| && source != me && Pair(rqs[source], rqs[me]) && Limit(n, idle) > 0
      modifies rqs, rqs[source].task.Values, rqs[me].task.Values
      ensures Pair(rqs[source], rqs[me])
      ensures Pulled(old(Now(rqs[source])), old(Now(rqs[me])), ms, Now(rqs[source]), Now(rqs[me]), f, Limit(n, idle))
      ensures rqs[source].nrRunning == old(rqs[source].nrRunning) - |ms| && |ms| <= Limit(n, idle)
      ensures rqs[me].nrRunning == old(rqs[me].nrRunning) + |ms|
      ensures forall i :: 0 <= i < |rqs| && i != me && i != source ==> Now(rqs[i]) == old(Now(rqs[i]))
    {
      hide Pulled, Runqueue.Valid;
      ms := Pull(rqs[source], rqs[me], f, n, idle);
      PulledCounts(old(Now(rqs[source])), old(Now(rqs[me])), ms, Now(rqs[source]), Now(rqs[me]), f, Limit(n, idle));
    }

    /** load_balance, with no lock released in between. It returns the runqueue it pulled
        from, or -1, and the tasks it moved. */
    method Balance(idle: bool, f: Filter) returns (source: int, ghost ms: seq<Tid>)
      requires Ready() && f.cpu == me && rqs[me].Valid()
      requires forall i :: 0 <= i < |rqs| && i != me ==> Pair(rqs[i], rqs[me])
      modifies this, rqs, set i, t | 0 <= i < |rqs| && t in rqs[i].task :: rqs[i].task[t]
      ensures Ready() && prev == old(Lengths(rqs)) && source < |rqs| && rqs[me].Valid()
      ensures forall i :: 0 <= i < |rqs| && i != me && i != source ==> Now(rqs[i]) == old(Now(rqs[i]))
      ensures source < 0 ==> ms == [] && Now(rqs[me]) == old(Now(rqs[me]))
      ensures exists imbalance :: Chooses(old(Lengths(rqs)), old(prev), me, idle, source, imbalance)
                && (source >= 0 ==> Pulled(old(Now(rqs[source])), old(Now(rqs[me])), ms, Now(rqs[source]), Now(rqs[me]),
                                           f, if idle then 1 else imbalance))
      ensures source >= 0 ==> Pair(rqs[source], rqs[me]) && rqs[me].nrRunning <= rqs[source].nrRunning
    {
      hide Pulled, Decides, Runqueue.Valid, Lengths, Chooses;
      var imbalance;
      source, imbalance := Decide(idle);
      NotNegative(rqs[me]);
      DecidesIs(Lengths(rqs), old(prev), me, idle, source, imbalance);
      ms := [];
      if source >= 0 {
        NeverLonger(Lengths(rqs), old(prev), me, idle, source, imbalance);
        ms := PullFrom(source, imbalance, idle, f);
      }
    }

    /** The pull of a processor whose runqueue is empty. */
    method PullOne(f: Filter) returns (source: int, ghost ms: seq<Tid>)
      requires Ready() && f.cpu == me && rqs[me].Valid() && rqs[me].nrRunning == 0
      requires forall i :: 0 <= i < |rqs| && i != me ==> Pair(rqs[i], rqs[me])
      modifies this, rqs, set i, t | 0 <= i < |rqs| && t in rqs[i].task :: rqs[i].task[t]
      ensures Ready() && rqs[me].Valid() && source < |rqs|
      ensures old(rqs[me].curr in rqs[me].task) && rqs[me].curr in rqs[me].task
      ensures rqs[me].curr == old(rqs[me].curr) && rqs[me].task[rqs[me].curr] == old(rqs[me].task[rqs[me].curr])
      ensures IdlePull(old(Snaps(rqs)), me, f, source, ms)
      ensures ms == [] ==> rqs[me].view == old(rqs[me].view)
      ensures ms != [] ==> rqs[me].view.Shaped() && ms == [Chosen(rqs[me].view).curr]
    {
      hide Pulled, Chooses, Runqueue.Valid, Lengths, Chosen, View.Inv, Empty, Longest, TakesFirst, View.Shaped, Snaps;
      forall i | 0 <= i < |rqs| && i != me
        ensures rqs[i].view.Inv() && rqs[i].task.Keys !! rqs[me].view.rec.Keys
      {
        PairFacts(rqs[i], rqs[me]);
      }
      CurrFacts(rqs[me]);
      NothingRuns(rqs[me]);
      source, ms := Balance(true, f);
      ghost var imbalance :| Chooses(old(Lengths(rqs)), old(prev), me, true, source, imbalance)
        && (source >= 0 ==> Pulled(old(Now(rqs[source])), old(Now(rqs[me])), ms, Now(rqs[source]), Now(rqs[me]),
                                   f, 1));
      assert Counts(old(Snaps(rqs))) == old(Lengths(rqs));
      ChoosesIdle(old(Lengths(rqs)), old(prev), me, source, imbalance);
      IdleIsLongest(old(Lengths(rqs)), me, source);
      if source >= 0 {
        PairFacts(rqs[source], rqs[me]);
        PulledOne(old(Now(rqs[source])), old(Now(rqs[me])), ms, Now(rqs[source]), Now(rqs[me]), f);
      }
      CurrFacts(rqs[me]);
    }

    /** What schedule() on this processor does before the pull. */
    method Withdraw(signalPending: bool)
      requires Ready() && rqs[me].Valid()
      requires forall i :: 0 <= i < |rqs| && i != me ==> Pair(rqs[i], rqs[me])
      requires rqs[me].curr in rqs[me].task
      requires var p := rqs[me].task[rqs[me].curr]; p.s.state.Running? || p.onArray.Some?
      modifies rqs[me], rqs[me].task[rqs[me].curr]
      ensures rqs[me].task == old(rqs[me].task) && rqs[me].curr == old(rqs[me].curr)
      ensures rqs[me].Valid() && old(rqs[me].view).Shaped() && rqs[me].view == Leave(old(rqs[me].view), signalPending)
      ensures rqs[me].nrRunning == 0 <==> Empty(rqs[me].view)
      ensures forall i :: 0 <= i < |rqs| && i != me ==> Pair(rqs[i], rqs[me]) && rqs[i] != rqs[me]
    {
      hide Runqueue.Valid, Leave, Empty, View.Shaped;
      CurrFacts(rqs[me]);
      forall i | 0 <= i < |rqs| && i != me ensures rqs[i] != rqs[me] && rqs[i].task.Values !! rqs[me].task.Values {
        Separate(rqs[i], rqs[me]);
      }
      rqs[me].Depart(signalPending);
      NothingRuns(rqs[me]);
    }

    /** schedule() on this processor: if nothing is left to run it tries to pull a task from
        another processor, and runs that one. */
    method Schedule(signalPending: bool, f: Filter) returns (source: int, ghost ms: seq<Tid>)
      requires Ready() && f.cpu == me && rqs[me].Valid()
      requires forall i :: 0 <= i < |rqs| && i != me ==> Pair(rqs[i], rqs[me])
      requires rqs[me].curr in rqs[me].task
      requires var p := rqs[me].task[rqs[me].curr]; p.s.state.Running? || p.onArray.Some?
      modifies this, rqs, set i, t | 0 <= i < |rqs| && t in rqs[i].task :: rqs[i].task[t]
      ensures Ready() && rqs[me].Valid() && (ms == [] || ms == [rqs[me].curr])
      ensures if OneLeaves(old(rqs[me].view), signalPending) then IdlePull(old(Snaps(rqs)), me, f, source, ms)
              else source < 0 && ms == []
      ensures ms == [] ==> Scheduled(old(rqs[me].view), rqs[me].view, signalPending)
    {
      hide Runqueue.Valid, Chosen, Leave, Empty, View.Shaped, View.Inv, Pair, Snaps, IdlePull;
      ghost var was := Snaps(rqs);
      Withdraw(signalPending);
      source, ms := -1, [];
      if rqs[me].nrRunning == 0 {
        ghost var now := Snaps(rqs);
        source, ms := PullOne(f);
        PullSame(was, now, me, f, source, ms);
      } else {
        CurrFacts(rqs[me]);
      }
      rqs[me].Choose();
      CurrFacts(rqs[me]);
    }
  }

  lemma PairFacts(src: Runqueue, dst: Runqueue)
    requires Pair(src, dst)
    ensures src != dst && src.view.Inv() && dst.view.Inv() && src.task.Keys !! dst.view.rec.Keys
  {
    hide View.Inv, Sound;
    CurrFacts(src);
    CurrFacts(dst);
    Separate(src, dst);
  }

  lemma NotNegative(rq: Runqueue)
    requires rq.Valid()
    ensures rq.nrRunning >= 0
  {
    hide View.Inv;
    CurrFacts(rq);
    assert forall i :: 0 <= i < 4 ==> rq.arrays[i].Indexed() && rq.arrays[i].nrActive >= 0;
  }

  lemma NothingRuns(rq: Runqueue)
    requires rq.Valid()
    ensures rq.view.Shaped() && (rq.nrRunning == 0 <==> Empty(rq.view))
  {
    CountsTasks(rq.view, rq.arrays, rq.active, rq.nrRunning);
  }

  /** A task that joins an empty runqueue is the next to run there. */
  lemma AloneNext(u: View, p: Tid, x: Rec)
    requires u.Inv() && Empty(u) && p !in u.rec && RecOk(x) && !x.policy.Short?
    requires 0 <= x.prio < MAX_PRIO && Take(u, p, x).Inv()
    ensures Chosen(Take(u, p, x)).curr == p
  {
    hide View.Inv, RecOk, Place, View.In, Pick, SwitchArrays, Empty;
    InvShaped(u);
    var i := |Remove(u.q[ACTIVE][x.prio], p)|;
    var w := Place(u, p, x, ACTIVE, i);
    AloneFits(x);
    PlaceInv(u, p, x, ACTIVE, i);
    var n := Take(u, p, x);
    forall t, r: Role | t in u.rec ensures !w.In(r, t) {
      EmptyIn(u, r, t);
      PlaceOthers(u, p, x, ACTIVE, i, r, t);
    }
    ReschedIn(w);
    if Empty(n) { EmptyIn(n, ACTIVE, p); }
    PickQueued(n);
    assert n.rec.Keys == u.rec.Keys + {p};
    SwitchQueued(n, p);
    SwitchQueued(n, Pick(SwitchArrays(n)));
  }

  lemma AloneFits(x: Rec)
    requires RecOk(x) && !x.policy.Short?
    ensures Fits(ACTIVE, x)
  {
  }

  lemma EmptyIn(v: View, r: Role, t: Tid)
    requires v.Shaped() && Empty(v) && t in v.rec
    ensures !v.In(r, t)
  {
  }

  lemma ReschedIn(w: View)
    requires w.Shaped() && w.curr in w.rec
    ensures Resched(w).Shaped() && Resched(w).rec.Keys == w.rec.Keys
    ensures forall r: Role, t :: t in w.rec ==> (Resched(w).In(r, t) <==> w.In(r, t))
  {
  }

  /** An idle processor pulls at most one task, and that is its next one. */
  lemma PulledOne(s0: Snap, d0: Snap, ms: seq<Tid>, s: Snap, d: Snap, f: Filter)
    requires Pulled(s0, d0, ms, s, d, f, 1) && s0.view.Inv() && d0.view.Inv() && Empty(d0.view)
    requires d.view.Inv() && s0.task.Keys !! d0.view.rec.Keys
    ensures d.view.curr == d0.view.curr
    ensures forall t :: t in d0.task && t in d0.view.rec ==> t in d.task && d.task[t] == d0.task[t]
    ensures TakesFirst(s0.view, f, ms)
    ensures ms == [] ==> d.view == d0.view
    ensures forall p :: p in ms ==> p in s0.task
    ensures ms != [] ==> d.view.Shaped() && ms == [Chosen(d.view).curr]
  {
    hide View.Inv, Candidates, Chosen, Take, Empty;
    if ms != [] {
      var p := ms[0];
      assert ms == [p] && ms[..|ms| - 1] == [];
      assert TakeAll(d0.view, ms[..|ms| - 1], s0.view.rec) == d0.view;
      RecAt(s0.view, p);
      AloneNext(d0.view, p, s0.view.rec[p]);
    }
  }

  lemma {:induction false} BusiestOf(ls: seq<int>, me: nat, n: nat) returns (b: int)
    requires n <= |ls|
    ensures b < n && Longest(ls[..n], me, b)
  {
    if n == 0 { return -1; }
    b := BusiestOf(ls, me, n - 1);
    var c := ls[..n - 1];
    assert forall i :: 0 <= i < n - 1 ==> ls[..n][i] == c[i];
    if n - 1 != me && ls[n - 1] > 1 && (b < 0 || ls[n - 1] > c[b]) {
      b := n - 1;
    }
  }

  /** An idle processor pulls from the first of the longest others if and only if that has at
      least two tasks more. */
  ghost predicate IdleChoice(nrs: seq<int>, me: nat, s: int)
    requires me < |nrs|
  {
    if s < 0 then forall i :: 0 <= i < |nrs| && i != me ==> nrs[i] <= nrs[me] + 1
    else s < |nrs| && Longest(nrs, me, s) && nrs[s] > nrs[me] + 1
  }

  /** Which runqueue load_balance pulls from, and how many tasks at most. */
  ghost predicate Chooses(nrs: seq<int>, prev: seq<int>, me: nat, idle: bool, source: int, limit: int)
    requires me < |nrs| == |prev|
  {
    if idle then IdleChoice(nrs, me, source) else StablePull(nrs, prev, me, source, limit)
  }

  lemma DecidesIs(nrs: seq<int>, prev: seq<int>, me: nat, idle: bool, s: int, imbalance: int)
    requires me < |nrs| == |prev| && nrs[me] >= 0 && s < |nrs| && Decides(nrs, prev, me, idle, s, imbalance)
    ensures Chooses(nrs, prev, me, idle, s, imbalance)
  {
    hide Decides, IdleChoice, StablePull;
    if idle { IdleDecides(nrs, prev, me, s, imbalance); } else { BusyDecides(nrs, prev, me, s, imbalance); }
  }

  lemma ChoosesIdle(nrs: seq<int>, prev: seq<int>, me: nat, s: int, limit: int)
    requires me < |nrs| == |prev| && Chooses(nrs, prev, me, true, s, limit)
    ensures IdleChoice(nrs, me, s)
  {
  }

  lemma IdleIsLongest(nrs: seq<int>, me: nat, s: int)
    requires me < |nrs| && nrs[me] == 0 && IdleChoice(nrs, me, s)
    ensures Longest(nrs, me, s)
  {
  }

  /** An idle processor decides by the lengths alone. */
  lemma IdleDecides(nrs: seq<int>, prev: seq<int>, me: nat, s: int, imbalance: int)
    requires me < |nrs| == |prev| && nrs[me] >= 0 && s < |nrs| && Decides(nrs, prev, me, true, s, imbalance)
    ensures IdleChoice(nrs, me, s)
  {
    assert Loads(nrs, prev, true) == nrs;
    if s < 0 {
      var b := BusiestOf(nrs, me, |nrs|);
      assert nrs[..|nrs|] == nrs;
    }
  }

  /** What it pulls does not depend on its own runqueue. */
  lemma PullSame(was: seq<Snap>, now: seq<Snap>, me: nat, f: Filter, s: int, ms: seq<Tid>)
    requires |was| == |now| && forall i :: 0 <= i < |was| && i != me ==> was[i] == now[i]
    ensures IdlePull(was, me, f, s, ms) <==> IdlePull(now, me, f, s, ms)
    ensures IdlePull(was, me, f, s, ms) && s >= 0 ==> s < |was| && s != me && was[s] == now[s]
  {
    hide TakesFirst;
    LongestSame(Counts(was), Counts(now), me, s);
  }

  lemma LongestSame(nrs: seq<int>, now: seq<int>, me: nat, s: int)
    requires |nrs| == |now| && forall i :: 0 <= i < |nrs| && i != me ==> nrs[i] == now[i]
    ensures Longest(nrs, me, s) <==> Longest(now, me, s)
    ensures Longest(nrs, me, s) && s >= 0 ==> s < |nrs| && s != me
  {
  }

  lemma WorthIf(load: int, length: int, own: int, idle: bool)
    ensures Worth(load, length, own, idle) <==>
              !(!idle && CDiv(load - own, 2) < CDiv(load + 3, 4)) && !(length <= own + 1)
  {
  }

  /** The first of the largest loads is unique. */
  lemma OneBusiest(ls: seq<int>, me: nat, b: int)
    ensures b == -1 && (forall i :: 0 <= i < |ls| && i != me ==> ls[i] <= 1) ==>
              forall a: nat :: !IsBusiest(ls, me, a)
    ensures b >= 0 && IsBusiest(ls, me, b) ==> forall a: nat :: IsBusiest(ls, me, a) ==> a == b
  {
  }

  ghost predicate Decides(nrs: seq<int>, prev: seq<int>, me: nat, idle: bool, source: int, imbalance: int)
    requires me < |nrs| == |prev|
  {
    var ls, own := Loads(nrs, prev, idle), OwnLoad(nrs[me], prev[me], idle);
    if source < 0 then forall b: nat :: b < |ls| && IsBusiest(ls, me, b) ==> !Worth(ls[b], nrs[b], own, idle)
    else
      && IsBusiest(ls, me, source) && Worth(ls[source], nrs[source], own, idle)
      && imbalance == CDiv(ls[source] - own, 2)
  }

  /** The first candidates, and at most n, have been moved. */
  ghost predicate Pulled(s0: Snap, d0: Snap, ms: seq<Tid>, s: Snap, d: Snap, f: Filter, n: int) {
    && s0.view.Shaped() && n > 0 && Moved(s0, d0, ms, s, d)
    && var c := Candidates(s0.view, f);
       ms == if |c| < n then c else c[..n]
  }

  lemma PulledCounts(s0: Snap, d0: Snap, ms: seq<Tid>, s: Snap, d: Snap, f: Filter, n: int)
    requires Pulled(s0, d0, ms, s, d, f, n)
    ensures s.nr == s0.nr - |ms| && d.nr == d0.nr + |ms| && |ms| <= n
  {
  }

  /** Moving at most the imbalance does not make the own runqueue the longer one. */
  lemma NeverLonger(nrs: seq<int>, prev: seq<int>, me: nat, idle: bool, source: int, imbalance: int)
    requires me < |nrs| == |prev| && Decides(nrs, prev, me, idle, source, imbalance) && source >= 0
    ensures source < |nrs| && source != me && Limit(imbalance, idle) > 0
    ensures nrs[me] + Limit(imbalance, idle) <= nrs[source] - Limit(imbalance, idle)
  {
  }
}
