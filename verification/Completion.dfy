/** Completions, as interleaved steps. The lock of the wait queue orders complete() and
    wait_for_completion(), but schedule() takes only that of the runqueue: a waiter may leave
    the processor or come back, or be woken from elsewhere, between its last unlock and
    its next lock and between any two attempts of the walk in complete(). */
module Completions {
  import opened Lists
  import opened TaskModel
  import opened SchedSpec
  import opened SchedInvariant
  import SchedRuns
  import opened WaitQueues
  import opened RunqueueModel

  /** Where a waiter is between dropping the lock and taking it again. */
  datatype Phase =
    | Window    // its state is set, schedule() has not looked at it yet
    | Away      // switched out inside schedule()
    | Back      // schedule() has returned

  /** `completed` and `returned` count the calls that have happened; `walk` is the next entry
      that complete() will attempt while it holds the lock. */
  datatype World = World(
    done: nat, queue: seq<Entry>, ts: Sleepers, phase: map<Tid, Phase>, completed: nat, returned: nat,
    walk: Option<nat>)

  const MODE: set<State> := {Uninterruptible, Interruptible}

  const ASLEEP := Sleeper(Uninterruptible, true)

  datatype Step =
    | Arrive(t: Tid)      // wait_for_completion up to its first unlock
    | Switch(t: Tid)      // schedule() deactivates the waiter unless a wake-up came first
    | Resume(t: Tid)      // the waiter is picked again and schedule() returns
    | Recheck(t: Tid)     // the waiter takes the lock and looks at `done`
    | Complete            // complete() up to the walk
    | Try                 // one attempt of the walk, and the unlock after the last one
    | Stray(t: Tid)       // a wake-up of the waiter from elsewhere

  predicate Waits(w: World, t: Tid) { exists i :: 0 <= i < |w.queue| && w.queue[i].task == t }

  ghost predicate Enabled(w: World, s: Step) {
    match s
    case Arrive(t) => w.walk.None? && !Waits(w, t) && t in w.ts && w.ts[t] == AWAKE
    case Switch(t) => Waits(w, t) && t in w.ts && t in w.phase && w.phase[t].Window?
    case Resume(t) => Waits(w, t) && t in w.ts && t in w.phase && w.phase[t].Away? && w.ts[t].queued
    case Recheck(t) => w.walk.None? && Waits(w, t) && t in w.ts && t in w.phase && w.phase[t].Back?
    case Complete => w.walk.None?
    case Try => w.walk.Some? && w.walk.value < |w.queue| && w.queue[w.walk.value].task in w.ts
    case Stray(t) => Waits(w, t) && t in w.ts
  }

  /** What schedule() does to the task that called it: it stays on the runqueue only if it is
      runnable. */
  function Switched(s: Sleeper): Sleeper {
    if s.state.Running? then s else s.(queued := false)
  }

  ghost function Sleep(w: World, t: Tid): World {
    w.(ts := w.ts[t := ASLEEP], phase := w.phase[t := Window])
  }

  /** The walk goes on at entry k, or is over. */
  function Going(q: seq<Entry>, k: nat): Option<nat> { if k < |q| then Some(k) else None }

  /** try_to_wake_up on the next entry; the walk ends with the first exclusive task that it
      puts back on the runqueue. */
  ghost function Tried(w: World): World
    requires Enabled(w, Try)
  {
    var k := w.walk.value;
    var e := w.queue[k];
    var s := w.ts[e.task];
    if !Eligible(s, MODE) then w.(walk := Going(w.queue, k + 1))
    else w.(ts := w.ts[e.task := AWAKE], walk := if e.exclusive && !s.queued then None else Going(w.queue, k + 1))
  }

  ghost function Next(w: World, s: Step): World
    requires Enabled(w, s)
  {
    match s
    case Arrive(t) =>
      if w.done == 0 then Sleep(w.(queue := w.queue + [Entry(t, true)]), t)
      else w.(done := w.done - 1, returned := w.returned + 1)
    case Switch(t) =>
      w.(phase := w.phase[t := Away], ts := w.ts[t := Switched(w.ts[t])])
    case Resume(t) => w.(phase := w.phase[t := Back])
    case Recheck(t) =>
      if w.done == 0 then Sleep(w, t)
      else w.(done := w.done - 1, queue := Remove(w.queue, Entry(t, true)), returned := w.returned + 1)
    case Complete =>
      w.(done := w.done + 1, completed := w.completed + 1, walk := Going(w.queue, 0))
    case Try => Tried(w)
    case Stray(t) => w.(ts := w.ts[t := AWAKE])
  }

  // ---- the steps on a runqueue ----------------------------------------------------------------

  /** Setting the state of the running task, as seen by wake-ups, is the sleep step. */
  lemma SleepSeen(v: View)
    requires v.Inv() && v.CurrQueued() && v.curr != v.idle
    ensures v.Shaped()
    ensures var w := SetRec(v, v.curr, v.rec[v.curr].(state := Uninterruptible));
            w.Inv() && w.CurrQueued() && w.curr == v.curr && See(w) == See(v)[v.curr := ASLEEP]
  {
    hide View.Inv;
    InvShaped(v);
    RecAt(v, v.curr);
    var x := v.rec[v.curr].(state := Uninterruptible);
    SetRecInv(v, v.curr, x);
    var w := SetRec(v, v.curr, x);
    forall t | t in v.rec ensures w.Queued(t) == v.Queued(t) { QueuedSame(v, x, t); }
  }

  lemma QueuedSame(v: View, x: Rec, t: Tid)
    requires v.Shaped() && SamePlace(x, v.rec[v.curr]) && t in v.rec
    ensures SetRec(v, v.curr, x).Shaped() && SetRec(v, v.curr, x).Queued(t) == v.Queued(t)
  {
    assert forall r: Role :: SetRec(v, v.curr, x).In(r, t) == v.In(r, t);
  }

  /** schedule(), as seen by wake-ups, is the switch step of the task that called it; it
      comes back in a task that is on the runqueue. */
  lemma ScheduleSeen(v: View, signalPending: bool)
    requires v.Inv() && v.CurrQueued() && v.curr != v.idle
    requires v.rec[v.curr].state.Running? || v.rec[v.curr].state.Uninterruptible?
    ensures v.Shaped()
    ensures var w := Schedule(v, signalPending);
            && w.Inv() && w.CurrQueued()
            && See(w) == See(v)[v.curr := Switched(See(v)[v.curr])]
            && (w.curr != w.idle ==> w.curr in See(w) && See(w)[w.curr].queued)
  {
    hide View.Inv, View.Queued, Schedule;
    InvShaped(v);
    ScheduleKeeps(v, signalPending);
    var w := Schedule(v, signalPending);
    InvShaped(w);
    OwnState(v, signalPending);
    CurrOnQueue(v);
    CurrOnQueue(w);
    forall t | t in v.rec ensures See(w)[t] == See(v)[v.curr := Switched(See(v)[v.curr])][t] {
      SchedRuns.ScheduleAlike(v, signalPending, t);
    }
  }

  lemma CurrOnQueue(v: View)
    requires v.Inv() && v.CurrQueued()
    ensures v.Shaped() && (v.curr == v.idle || v.Queued(v.curr))
  {
  }

  lemma OwnState(v: View, signalPending: bool)
    requires v.Shaped() && (v.rec[v.curr].state.Running? || v.rec[v.curr].state.Uninterruptible?)
    ensures Schedule(v, signalPending).rec == v.rec[v.curr := v.rec[v.curr].(needResched := false)]
  {
  }

  /** try_to_wake_up on the next entry, as wake-ups see it, is one attempt of the walk. */
  lemma TrySeen(w: World, v: View, hz: Hz, slept: nat)
    requires Enabled(w, Try) && v.Inv() && w.ts == See(v) && w.queue[w.walk.value].task != v.idle
    ensures v.Shaped()
    ensures var u := Attempted(v, w.queue[w.walk.value].task, MODE, hz, slept);
            u.Inv() && u.Shaped() && See(u) == Next(w, Try).ts
  {
    hide View.Inv, Attempted;
    AttemptSeen(v, w.queue[w.walk.value].task, MODE, hz, slept);
    InvShaped(Attempted(v, w.queue[w.walk.value].task, MODE, hz, slept));
  }

  predicate Awake(ts: Sleepers, t: Tid) { t in ts && ts[t].state.Running? }

  function AwakeIn(q: seq<Entry>, ts: Sleepers): nat {
    if q == [] then 0 else (if Awake(ts, q[0].task) then 1 else 0) + AwakeIn(q[1..], ts)
  }

  /** A waiter in its phase: still on the runqueue until it has switched out awake or
      asleep; off the runqueue exactly while it sleeps. */
  predicate InPhase(s: Sleeper, p: Phase) {
    && (s.state.Running? || s.state.Uninterruptible?)
    && (match p
        case Window => s.queued
        case Away => s.queued <==> s.state.Running?
        case Back => s == AWAKE)
  }

  ghost predicate WaiterOk(w: World, e: Entry) {
    e.exclusive && e.task in w.ts && e.task in w.phase && InPhase(w.ts[e.task], w.phase[e.task])
  }

  ghost predicate Formed(w: World) {
    && Distinct(w.queue)
    && forall i :: 0 <= i < |w.queue| ==> WaiterOk(w, w.queue[i])
  }

  ghost predicate AllAwake(w: World) { forall i :: 0 <= i < |w.queue| ==> Awake(w.ts, w.queue[i].task) }

  /** No completion is lost: while a waiter sleeps, at least `done` waiters are awake and
      on their way to take one each. In the walk one may be missing, and all entries behind
      it are awake. */
  ghost predicate NoneLost(w: World) {
    match w.walk
    case None => AwakeIn(w.queue, w.ts) >= w.done || AllAwake(w)
    case Some(k) =>
      && k < |w.queue| && w.done > 0 && (AwakeIn(w.queue, w.ts) >= w.done - 1 || AllAwake(w))
      && forall i :: 0 <= i < k ==> Awake(w.ts, w.queue[i].task)
  }

  ghost predicate Inv(w: World) {
    Formed(w) && NoneLost(w) && w.returned + w.done == w.completed
  }

  // ---- counting waiters -------------------------------------------------------------------

  lemma {:induction false} AwakeGrows(q: seq<Entry>, ts: Sleepers, us: Sleepers)
    requires forall i :: 0 <= i < |q| && Awake(ts, q[i].task) ==> Awake(us, q[i].task)
    ensures AwakeIn(q, us) >= AwakeIn(q, ts)
    ensures (exists i :: 0 <= i < |q| && Awake(us, q[i].task) && !Awake(ts, q[i].task)) ==>
              AwakeIn(q, us) > AwakeIn(q, ts)
  {
    if q != [] {
      assert forall i :: 0 <= i < |q[1..]| ==> q[1..][i] == q[i + 1];
      AwakeGrows(q[1..], ts, us);
      if i :| 0 <= i < |q| && Awake(us, q[i].task) && !Awake(ts, q[i].task) {
        assert i > 0 ==> q[1..][i - 1] == q[i];
      }
    }
  }

  lemma {:induction false} AwakeRemove(q: seq<Entry>, ts: Sleepers, e: Entry)
    requires e in q && Awake(ts, e.task)
    ensures AwakeIn(Remove(q, e), ts) == AwakeIn(q, ts) - 1
  {
    if q[0] != e {
      AwakeRemove(q[1..], ts, e);
      assert Remove(q, e)[1..] == Remove(q[1..], e);
    }
  }

  lemma {:induction false} AwakeNone(q: seq<Entry>, ts: Sleepers)
    ensures AwakeIn(q, ts) > 0 <==> exists i :: 0 <= i < |q| && Awake(ts, q[i].task)
  {
    if q != [] {
      AwakeNone(q[1..], ts);
      assert forall i :: 0 <= i < |q[1..]| ==> q[1..][i] == q[i + 1];
      if i :| 0 <= i < |q| && Awake(ts, q[i].task) {
        assert i > 0 ==> q[1..][i - 1] == q[i];
      }
    }
  }

  // ---- the walk of complete() ------------------------------------------------------------

  ghost function Tries(n: nat): (es: seq<Step>)
    ensures |es| == n
  {
    if n == 0 then [] else [Try] + Tries(n - 1)
  }

  /** An attempt, as __wake_up_common counts it. */
  lemma TriedIs(w: World, ts: Sleepers, k: nat)
    requires Known(w.queue, ts) && k < |w.queue| && w.walk == Some(k) && w.ts == After(w.queue, ts, MODE, k)
    ensures Enabled(w, Try)
    ensures Tried(w) == w.(ts := After(w.queue, ts, MODE, k + 1),
                           walk := if Wakeable(w.queue, ts, MODE, k) then None else Going(w.queue, k + 1))
  {
    Attempt(w.queue, ts, MODE, k);
  }

  /** The attempts that are left, when nothing comes in between. */
  lemma {:induction false} WalkOn(w: World, ts: Sleepers, k: nat)
    requires Known(w.queue, ts) && k <= |w.queue| && w.walk == Going(w.queue, k)
    requires w.ts == After(w.queue, ts, MODE, k) && Count(w.queue, ts, MODE, k) == 0
    ensures var i := Stop(w.queue, ts, MODE, 1, k);
            && Runs(w, Tries(i - k))
            && Reached(w, Tries(i - k)) == w.(walk := None, ts := After(w.queue, ts, MODE, i))
    decreases |w.queue| - k
  {
    hide Tried, After, Wakeable;
    if k < |w.queue| {
      TriedIs(w, ts, k);
      var i := Stop(w.queue, ts, MODE, 1, k);
      assert Tries(i - k)[1..] == Tries(i - k - 1);
      if Wakeable(w.queue, ts, MODE, k) {
        assert Tries(i - k - 1) == [];
      } else {
        WalkOn(Tried(w), ts, k + 1);
      }
    }
  }

  /** A walk over all that it may reach wakes a waiter more, or finds all awake. */
  lemma WalkWakes(w: World)
    requires Formed(w)
    ensures Known(w.queue, w.ts)
    ensures var us := After(w.queue, w.ts, MODE, Stop(w.queue, w.ts, MODE, 1, 0));
            AwakeIn(w.queue, us) > AwakeIn(w.queue, w.ts) || AllAwake(w.(ts := us))
  {
    var q, ts := w.queue, w.ts;
    forall i | 0 <= i < |q| ensures q[i].task in ts { assert WaiterOk(w, q[i]); }
    var k := Stop(q, ts, MODE, 1, 0);
    var us := After(q, ts, MODE, k);
    StopCount(q, ts, MODE, 1, 0);
    AwakeGrows(q, ts, us);
    if Count(q, ts, MODE, |q|) >= 1 {
      assert Awake(us, q[k - 1].task) && !Awake(ts, q[k - 1].task);
    } else {
      forall i | 0 <= i < |q| ensures Awake(us, q[i].task) { assert WaiterOk(w, q[i]); }
    }
  }

  /** complete() with no step in between is the walk of __wake_up_common, and it wakes a
      waiter more, or all of them. */
  lemma CompleteWakes(w: World)
    requires Inv(w) && w.walk.None?
    ensures Known(w.queue, w.ts)
    ensures var k := Stop(w.queue, w.ts, MODE, 1, 0);
            && Runs(w, [Complete] + Tries(k))
            && var u := Reached(w, [Complete] + Tries(k));
               && u == w.(done := w.done + 1, completed := w.completed + 1, ts := After(w.queue, w.ts, MODE, k))
               && (AwakeIn(u.queue, u.ts) > AwakeIn(w.queue, w.ts) || AllAwake(u))
  {
    hide Formed, AwakeIn, Stop, Eligible, AllAwake, Count;
    WalkWakes(w);
    assert Count(w.queue, w.ts, MODE, 0) == 0 by { CountNone(w.queue, w.ts); }
    var u := Next(w, Complete);
    var k := Stop(w.queue, w.ts, MODE, 1, 0);
    assert After(w.queue, w.ts, MODE, 0) == w.ts;
    WalkOn(u, w.ts, 0);
    var es := [Complete] + Tries(k);
    assert es[0] == Complete && es[1..] == Tries(k);
    AwakeSame(w.(ts := After(w.queue, w.ts, MODE, k)), Reached(w, es));
  }

  lemma AwakeSame(w: World, u: World)
    requires w.queue == u.queue && w.ts == u.ts
    ensures AllAwake(w) <==> AllAwake(u)
  {
  }

  lemma CountNone(q: seq<Entry>, ts: Sleepers)
    requires Known(q, ts)
    ensures Count(q, ts, MODE, 0) == 0
  {
  }

  // ---- every run ----------------------------------------------------------------------------

  lemma StepKeeps(w: World, s: Step)
    requires Inv(w) && Enabled(w, s)
    ensures Inv(Next(w, s))
  {
    match s
    case Arrive(t) => ArriveKeeps(w, t);
    case Recheck(t) => RecheckKeeps(w, t);
    case Complete => CompleteKeeps(w);
    case Try => TryKeeps(w);
    case Switch(t) => WaiterKeeps(w, s, t);
    case Resume(t) => WaiterKeeps(w, s, t);
    case Stray(t) => WaiterKeeps(w, s, t);
  }

  lemma CompleteKeeps(w: World)
    requires Inv(w) && Enabled(w, Complete)
    ensures Inv(Next(w, Complete))
  {
    var u := Next(w, Complete);
    forall i | 0 <= i < |u.queue| ensures WaiterOk(u, u.queue[i]) { assert WaiterOk(w, w.queue[i]); }
  }

  /** An attempt leaves its entry awake, and one that ends the walk early has woken a waiter
      that was asleep. */
  lemma TryKeeps(w: World)
    requires Inv(w) && Enabled(w, Try)
    ensures Inv(Next(w, Try))
  {
    var u, k := Next(w, Try), w.walk.value;
    assert WaiterOk(w, w.queue[k]);
    AwakeGrows(w.queue, w.ts, u.ts);
    forall i | 0 <= i < |u.queue| ensures WaiterOk(u, u.queue[i]) { assert WaiterOk(w, w.queue[i]); }
    assert Awake(u.ts, w.queue[k].task);
  }

  lemma ArriveKeeps(w: World, t: Tid)
    requires Inv(w) && Enabled(w, Arrive(t))
    ensures Inv(Next(w, Arrive(t)))
  {
    var u := Next(w, Arrive(t));
    if w.done == 0 {
      InsertMembers(w.queue, |w.queue|, Entry(t, true));
      assert Insert(w.queue, |w.queue|, Entry(t, true)) == u.queue;
      forall i | 0 <= i < |u.queue| ensures WaiterOk(u, u.queue[i]) {
        if i < |w.queue| { assert WaiterOk(w, w.queue[i]); }
      }
    } else {
      forall i | 0 <= i < |u.queue| ensures WaiterOk(u, u.queue[i]) { assert WaiterOk(w, w.queue[i]); }
    }
  }

  lemma RecheckKeeps(w: World, t: Tid)
    requires Inv(w) && Enabled(w, Recheck(t))
    ensures Inv(Next(w, Recheck(t)))
  {
    var u := Next(w, Recheck(t));
    var i :| 0 <= i < |w.queue| && w.queue[i].task == t;
    assert WaiterOk(w, w.queue[i]);
    if w.done > 0 {
      RemoveMembers(w.queue, w.queue[i]);
      AwakeRemove(w.queue, w.ts, w.queue[i]);
      forall j | 0 <= j < |u.queue| ensures WaiterOk(u, u.queue[j]) && u.queue[j] in w.queue {
        assert u.queue[j] in w.queue;
      }
    } else {
      forall j | 0 <= j < |u.queue| ensures WaiterOk(u, u.queue[j]) { assert WaiterOk(w, w.queue[j]); }
    }
  }

  lemma WaiterKeeps(w: World, s: Step, t: Tid)
    requires Inv(w) && Enabled(w, s) && (s == Switch(t) || s == Resume(t) || s == Stray(t))
    ensures Inv(Next(w, s))
  {
    var u := Next(w, s);
    AwakeGrows(w.queue, w.ts, u.ts);
    forall i | 0 <= i < |u.queue| ensures WaiterOk(u, u.queue[i]) { assert WaiterOk(w, w.queue[i]); }
  }

  ghost predicate Runs(w: World, steps: seq<Step>)
    decreases |steps|
  {
    steps == [] || (Enabled(w, steps[0]) && Runs(Next(w, steps[0]), steps[1..]))
  }

  ghost function Reached(w: World, steps: seq<Step>): World
    requires Runs(w, steps)
    decreases |steps|
  {
    if steps == [] then w else Reached(Next(w, steps[0]), steps[1..])
  }

  /** init_completion: nobody waits and nothing is done. */
  ghost function Initial(ts: Sleepers): World { World(0, [], ts, map[], 0, 0, None) }

  lemma {:induction false} RunKeeps(w: World, steps: seq<Step>)
    requires Inv(w) && Runs(w, steps)
    ensures Inv(Reached(w, steps))
    decreases |steps|
  {
    hide Inv, Enabled;
    if steps != [] {
      StepKeeps(w, steps[0]);
      RunKeeps(Next(w, steps[0]), steps[1..]);
    }
  }

  /** In every interleaving: the waits that have returned are the completions that have been
      consumed, and if a waiter sleeps then at least `done` waiters are awake; at least
      all but one of them, while complete() is still looking for the one to wake. */
  lemma NoCompletionLost(ts: Sleepers, steps: seq<Step>)
    requires Runs(Initial(ts), steps)
    ensures var w := Reached(Initial(ts), steps);
            && w.returned == w.completed - w.done
            && (forall i :: 0 <= i < |w.queue| && !Awake(w.ts, w.queue[i].task) ==>
                  AwakeIn(w.queue, w.ts) + (if w.walk.None? then 0 else 1) >= w.done)
  {
    hide Runs, Reached, Enabled, Next, Inv, AwakeIn;
    assert Inv(Initial(ts)) by { InitialOk(ts); }
    RunKeeps(Initial(ts), steps);
    NothingLost(Reached(Initial(ts), steps));
  }

  lemma NothingLost(w: World)
    requires Inv(w)
    ensures w.returned == w.completed - w.done
    ensures forall i :: 0 <= i < |w.queue| && !Awake(w.ts, w.queue[i].task) ==>
              AwakeIn(w.queue, w.ts) + (if w.walk.None? then 0 else 1) >= w.done
  {
    hide AwakeIn, Formed;
  }

  predicate OffQueue(ts: Sleepers, t: Tid) { t in ts && !ts[t].queued }

  /** When every waiter is off the runqueue, nothing is left undone: either no one waits or
      every completion has been consumed. */
  lemma QuietMeansConsumed(ts: Sleepers, steps: seq<Step>)
    requires Runs(Initial(ts), steps)
    ensures var w := Reached(Initial(ts), steps);
            w.walk.None? && (forall i :: 0 <= i < |w.queue| ==> OffQueue(w.ts, w.queue[i].task)) ==>
              w.queue == [] || (w.done == 0 && w.returned == w.completed)
  {
    hide Runs, Reached, Enabled, Next, Inv;
    assert Inv(Initial(ts)) by { InitialOk(ts); }
    RunKeeps(Initial(ts), steps);
    QuietState(Reached(Initial(ts), steps));
  }

  lemma InitialOk(ts: Sleepers)
    ensures Inv(Initial(ts))
  {
  }

  lemma QuietState(w: World)
    requires Inv(w)
    ensures w.walk.None? && (forall i :: 0 <= i < |w.queue| ==> OffQueue(w.ts, w.queue[i].task)) ==>
              w.queue == [] || (w.done == 0 && w.returned == w.completed)
  {
    hide AwakeIn, Distinct;
    AwakeNone(w.queue, w.ts);
    forall i | 0 <= i < |w.queue| && OffQueue(w.ts, w.queue[i].task)
      ensures !Awake(w.ts, w.queue[i].task)
    {
      assert WaiterOk(w, w.queue[i]);
    }
    if w.queue != [] { assert WaiterOk(w, w.queue[0]); }
  }

  /** The steps that take an awake waiter from its phase to its next look at `done`. */
  function Route(p: Phase, t: Tid): seq<Step> {
    match p
    case Window => [Switch(t), Resume(t), Recheck(t)]
    case Away => [Resume(t), Recheck(t)]
    case Back => [Recheck(t)]
  }

  /** The entries that the walk has not attempted. */
  ghost function Left(w: World): nat {
    if w.walk.Some? && w.walk.value < |w.queue| then |w.queue| - w.walk.value else 0
  }

  /** The walk of complete() comes to its end by its own steps. */
  lemma {:induction false} WalkEnds(w: World) returns (n: nat)
    requires Inv(w)
    ensures Runs(w, Tries(n))
    ensures var u := Reached(w, Tries(n));
            Inv(u) && u.walk.None? && u.(walk := w.walk, ts := w.ts) == w
    decreases Left(w)
  {
    if w.walk.None? { return 0; }
    assert WaiterOk(w, w.queue[w.walk.value]);
    StepKeeps(w, Try);
    n := WalkEnds(Next(w, Try));
    n := n + 1;
    assert Tries(n)[1..] == Tries(n - 1);
  }

  lemma {:induction false} RunOn(w: World, es: seq<Step>, fs: seq<Step>)
    requires Runs(w, es) && Runs(Reached(w, es), fs)
    ensures Runs(w, es + fs) && Reached(w, es + fs) == Reached(Reached(w, es), fs)
    decreases |es|
  {
    if es == [] {
      assert es + fs == fs;
    } else {
      assert (es + fs)[1..] == es[1..] + fs;
      RunOn(Next(w, es[0]), es[1..], fs);
    }
  }

  /** Progress: as long as something is done and someone waits, once the walk under way is
      over an awake waiter exists, and its own steps alone make its wait return. */
  lemma SomeoneReturns(w: World) returns (n: nat, t: Tid)
    requires Inv(w) && w.done > 0 && w.queue != []
    ensures Waits(w, t) && t in w.phase && Runs(w, Tries(n) + Route(w.phase[t], t))
    ensures var u := Reached(w, Tries(n) + Route(w.phase[t], t));
            !Waits(u, t) && u.returned == w.returned + 1 && |u.queue| == |w.queue| - 1
  {
    n := WalkEnds(w);
    var v := Reached(w, Tries(n));
    AwakeNone(v.queue, v.ts);
    var i :| 0 <= i < |v.queue| && Awake(v.ts, v.queue[i].task);
    t := v.queue[i].task;
    assert WaiterOk(v, v.queue[i]);
    RouteReturns(v, t, v.phase[t]);
    RunOn(w, Tries(n), Route(w.phase[t], t));
  }

  lemma RouteReturns(w: World, t: Tid, p: Phase)
    requires Inv(w) && w.walk.None? && w.done > 0 && Waits(w, t) && Awake(w.ts, t)
    requires t in w.phase && w.phase[t] == p
    ensures Runs(w, Route(p, t))
    ensures var u := Reached(w, Route(p, t));
            !Waits(u, t) && u.returned == w.returned + 1 && |u.queue| == |w.queue| - 1
    decreases match p case Window => 2 case Away => 1 case Back => 0
  {
    var i :| 0 <= i < |w.queue| && w.queue[i].task == t;
    assert WaiterOk(w, w.queue[i]);
    var s := Route(p, t)[0];
    StepKeeps(w, s);
    var u := Next(w, s);
    if p.Back? {
      RemoveMembers(w.queue, w.queue[i]);
      forall j | 0 <= j < |u.queue| ensures u.queue[j].task != t {
        assert u.queue[j] in w.queue;
        var k :| 0 <= k < |w.queue| && w.queue[k] == u.queue[j];
        assert WaiterOk(w, w.queue[k]);
      }
    } else {
      assert Route(p, t)[1..] == Route(u.phase[t], t);
      RouteReturns(u, t, u.phase[t]);
    }
  }

  // ---- the call itself, on a runqueue --------------------------------------------------------

  class Completion {
    var done: nat
    const wait: WaitQueue

    constructor ()
      ensures done == 0 && fresh(wait) && wait.Valid() && wait.list == []
    {
      done := 0;
      wait := new WaitQueue();
    }

    /** complete() */
    method Complete(rq: Runqueue, slept: seq<nat>)
      requires wait.Valid() && rq.Valid() && Waiting(rq.view, Shown(wait.list)) && |slept| == |wait.list|
      modifies this, rq`arrays, rq`nrRunning, rq`view, rq.task.Values
      ensures done == old(done) + 1 && rq.Valid() && wait.Valid() && Waiting(old(rq.view), Shown(wait.list))
      ensures var q, v := Shown(wait.list), old(rq.view);
              rq.view == Woken(v, q, MODE, rq.hz, slept, Stop(q, See(v), MODE, 1, 0))
    {
      hide Waiting, Runqueue.Valid, Shown, Woken, Stop, See, Ordered, Distinct, View.Shaped;
      done := done + 1;
      wait.WakeUp(rq, MODE, 1, slept);
    }
  }
}
