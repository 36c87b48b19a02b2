/** Interruptible sleep against signals, over whole runs. Sending a signal is an event from
    outside: it makes the signal pending and wakes its task up if that sleeps interruptibly. */
module Signals {
  import opened TaskModel
  import opened SchedSpec
  import opened SchedInvariant
  import opened SchedRuns
  import opened Effects

  datatype World = World(view: View, pending: set<Tid>)

  datatype Event =
    | Scheduler(step: Step)
    | Signal(t: Tid, slept: nat)    // a signal for t
    | Handled                       // the running task takes its signals

  /** schedule() sees whether a signal is pending for the task that calls it. */
  ghost predicate Possible(w: World, e: Event) {
    && w.view.Inv() && w.view.CurrQueued()
    && match e
       case Scheduler(s) => Enabled(w.view, s) && (s.ScheduleStep? ==> (s.signalPending <==> w.view.curr in w.pending))
       case Signal(t, _) => t in w.view.rec && t != w.view.idle
       case Handled => true
  }

  ghost function After(w: World, hz: Hz, e: Event): World
    requires Possible(w, e)
  {
    match e
    case Scheduler(s) => w.(view := Next(w.view, hz, s))
    case Signal(t, slept) =>
      RecAt(w.view, t);
      World(if w.view.rec[t].state.Interruptible? then TryToWakeUp(w.view, t, hz, slept) else w.view, w.pending + {t})
    case Handled => w.(pending := w.pending - {w.view.curr})
  }

  /** No task sleeps interruptibly on a pending signal: only the running task may have the
      interruptible state set, on its way to schedule(). */
  ghost predicate Heard(w: World) {
    && w.view.Inv() && w.view.CurrQueued()
    && forall t :: t in w.pending && t in w.view.rec && t != w.view.idle && t != w.view.curr ==>
         !w.view.rec[t].state.Interruptible?
  }

  lemma NamedHeard(v: View, hz: Hz, s: Step, t: Tid)
    requires Enabled(v, s) && Target(s) == Some(t) && t in Next(v, hz, s).rec && t != v.idle
    ensures (t in v.rec && Next(v, hz, s).rec[t].state == v.rec[t].state) || Next(v, hz, s).rec[t].state.Running?
  {
    hide View.Inv, Next, View.Queued, TakenOff;
    TargetTasks(v, hz, s, t);
    if s.WakeStep? || s.ForkStep? || s.TakeStep? {
      ArrivalQueued(v, hz, s, t);
    } else if s.NiceStep? || s.PolicyStep? {
      ChangedQueued(v, hz, s, t);
    }
  }

  /** The step of a scheduler event, for one task that has a signal. */
  lemma StepHeard(w: World, hz: Hz, s: Step, t: Tid)
    requires Heard(w) && Possible(w, Scheduler(s)) && t in w.pending && t in Next(w.view, hz, s).rec
    requires t != Next(w.view, hz, s).idle && t != Next(w.view, hz, s).curr
    ensures !Next(w.view, hz, s).rec[t].state.Interruptible?
  {
    hide View.Inv, Next, View.Queued, Schedule;
    var v := w.view;
    InvShaped(v);
    StepTasks(v, hz, s);
    if Target(s) == Some(t) {
      NamedHeard(v, hz, s, t);
    } else if t == v.curr {
      NextIs(v, hz, s);
      ScheduleLeaves(v, s.signalPending);
    } else {
      StepAlike(v, hz, s, t);
    }
  }

  lemma NextIs(v: View, hz: Hz, s: Step)
    requires Enabled(v, s) && s.ScheduleStep?
    ensures Next(v, hz, s) == Schedule(v, s.signalPending)
  {
  }

  lemma EventHeard(w: World, hz: Hz, e: Event)
    requires Heard(w) && Possible(w, e)
    ensures Heard(After(w, hz, e))
  {
    hide View.Inv, Next, View.Queued, TryToWakeUp, View.CurrQueued;
    var v, u := w.view, After(w, hz, e);
    match e
    case Scheduler(s) =>
      StepKeeps(v, hz, s);
      forall t | t in u.pending && t in u.view.rec && t != u.view.idle && t != u.view.curr
        ensures !u.view.rec[t].state.Interruptible?
      {
        StepHeard(w, hz, s, t);
      }
    case Signal(p, slept) =>
      if v.rec[p].state.Interruptible? { WokenHeard(w, hz, p, slept); }
    case Handled =>
  }

  lemma WokenHeard(w: World, hz: Hz, p: Tid, slept: nat)
    requires Heard(w) && p in w.view.rec && p != w.view.idle
    ensures RecOk(w.view.rec[p]) && Heard(World(TryToWakeUp(w.view, p, hz, slept), w.pending + {p}))
  {
    hide View.Inv, View.Queued, TryToWakeUp;
    RecAt(w.view, p);
    WakeKeeps(w.view, p, hz, slept);
    var s := WakeStep(p, slept);
    StepTasks(w.view, hz, s);
    var u := TryToWakeUp(w.view, p, hz, slept);
    forall t | t in w.view.rec && t != p ensures t in u.rec && u.rec[t].state == w.view.rec[t].state {
      WakeAlike(w.view, hz, p, slept, t);
    }
  }

  ghost predicate Runs(w: World, hz: Hz, es: seq<Event>)
    decreases |es|
  {
    es == [] || (Possible(w, es[0]) && Runs(After(w, hz, es[0]), hz, es[1..]))
  }

  ghost function Reached(w: World, hz: Hz, es: seq<Event>): World
    requires Runs(w, hz, es)
    decreases |es|
  {
    if es == [] then w else Reached(After(w, hz, es[0]), hz, es[1..])
  }

  /** Over every run no task sleeps through a signal. */
  lemma {:induction false} NoSignalSlept(w: World, hz: Hz, es: seq<Event>)
    requires Heard(w) && Runs(w, hz, es)
    ensures Heard(Reached(w, hz, es))
    decreases |es|
  {
    hide Heard, Possible, After;
    if es != [] {
      EventHeard(w, hz, es[0]);
      NoSignalSlept(After(w, hz, es[0]), hz, es[1..]);
    }
  }
}
