/** Inputs at which the scheduler does not do what one would expect. The theorems about
    exactly when that happens are elsewhere; these are states the kernel can be in. */
module Witnesses {
  import opened TaskModel
  import opened Entities
  import opened SchedSpec
  import opened SchedInvariant
  import opened SchedPick
  import opened SchedRuns
  import opened ShortBudget
  import ForkTrees
  import opened Effects
  import Ranks
  import opened RunqueueModel

  const INIT := Rec(Running, 120, 120, Other, 15, false, 0, 0, 0, 0, false, 0, false)
  const IDLE := Rec(Running, MAX_PRIO, 120, Other, 15, false, 0, 0, 0, 0, false, 0, true)

  /** An OTHER task at nice 0 that sleeps, and a SHORT task in its first trial. */
  const SLEEPER := Rec(Interruptible, 120, 120, Other, 15, false, 0, 0, 0, 0, false, 0, false)
  const RUNNER := Rec(Running, 120, 120, Short, 100, false, 0, 1000, 3, 0, false, 0, false)

  /** A running OTHER task at nice 0, and an overdue task that sleeps. */
  const OTHER := SLEEPER.(state := Running)
  const SPENT := Rec(Interruptible, 0, 120, Short, 1, false, 0, 1000, 3, 3, true, 0, false)

  /** A SHORT task with four trials that has used two. */
  const FORKER := RUNNER.(trials := 4, trial := 2)

  /** sched_setscheduler(pid, SCHED_SHORT, { 1000 ms, 3 trials }) by the owner. */
  const ADMIT := Request(4, 0, 1000, 3, true, false)

  /** sched_setparam(pid, { 7000 ms }) by the owner. */
  const SETPARAM := Request(-1, 0, 7000, 0, true, false)

  /** The request for 5 ms at 100 ticks a second. */
  const TINY := Request(4, 0, 5, 3, true, false)

  /** The boot task runs, and task 1 sleeps. */
  const ASLEEP_VIEW := SetRec(Boot(0, IDLE), 1, SLEEPER)

  /** Task 1 runs, in the SHORT policy. */
  const SHORT_VIEW := ToTail(Boot(0, IDLE), 1, RUNNER, SHORT_Q).(curr := 1)

  /** Task 1 runs, in the OTHER policy, and the overdue task 2 sleeps. */
  const OTHER_VIEW := ToTail(Boot(0, IDLE), 1, OTHER, ACTIVE).(curr := 1)
  const SPENT_VIEW := SetRec(OTHER_VIEW, 2, SPENT)

  /** Task 1 runs, and an OTHER task waits: at nice 0 without a sleep bonus, or at nice 19. */
  const HOG := OTHER.(prio := 125)
  const LOW := OTHER.(prio := 139, staticPrio := 139)
  const HOG_VIEW := ToTail(OTHER_VIEW, 2, HOG, ACTIVE)
  const LOW_VIEW := ToTail(OTHER_VIEW, 2, LOW, ACTIVE)

  lemma BootInv()
    ensures Boot(0, IDLE).Inv()
  {
    var v := Boot(0, IDLE);
    assert forall r, k :: 0 <= r < 4 && 0 <= k < MAX_PRIO ==> v.q[r][k] == [];
  }

  /** The policy change of a sleeping task is granted in a state the runs keep, and the task
      is off the queues: the case in which `p->array` is left stray. */
  lemma SleeperIsAdmitted()
    ensures Accounted(ASLEEP_VIEW, {}) && !ASLEEP_VIEW.Queued(1)
    ensures ASLEEP_VIEW.rec[1].policy.Other? && Check(ASLEEP_VIEW.rec[1], ADMIT) == Granted(Short)
  {
    BootInv();
    SetRecInv(Boot(0, IDLE), 1, SLEEPER);
  }

  /** A new request of a running SHORT task is granted, with a time that no admission would
      accept, and takes the running task off the queues. */
  lemma RunnerIsTakenOff()
    ensures Accounted(SHORT_VIEW, {}) && SHORT_VIEW.Queued(1) && RecOk(RUNNER)
    ensures Check(RUNNER, SETPARAM) == Granted(Short)
    ensures var w := SetScheduler(SHORT_VIEW, 1, SETPARAM, 100, 0);
            w.Shaped() && w.curr == 1 && w.rec[1].state.Running? && w.rec[1].requestedTime == 7000 && !w.CurrQueued()
  {
    BootInv();
    var v := Boot(0, IDLE);
    PlaceInv(v, 1, RUNNER, SHORT_Q, 0);
    CurrInv(ToTail(v, 1, RUNNER, SHORT_Q), 1);
    SetSchedulerKeeps(SHORT_VIEW, 1, SETPARAM, 100, 0);
  }

  /** A request below one tick is granted, with a slice of zero: the task keeps its SHORT
      rank for 2^32 ticks. */
  lemma TinyRequestLastsForever()
    ensures RecOk(SLEEPER) && Check(SLEEPER, TINY) == Granted(Short)
    ensures Repolicy(SLEEPER, Short, TINY, 100).timeSlice == 0
    ensures Budget(Repolicy(SLEEPER, Short, TINY, 100), 100) == 0x1_0000_0000
  {
    AdmittedBudget(SLEEPER, TINY, 100);
  }

  lemma OtherRuns()
    ensures OTHER_VIEW.Inv() && OTHER_VIEW.CurrQueued() && OTHER_VIEW.In(ACTIVE, 1)
    ensures OTHER_VIEW.rec.Keys == {0, 1} && OTHER_VIEW.rec[1] == OTHER && OTHER_VIEW.idle == 0
  {
    BootInv();
    var v := Boot(0, IDLE);
    PlaceInv(v, 1, OTHER, ACTIVE, 0);
    CurrInv(ToTail(v, 1, OTHER, ACTIVE), 1);
  }

  lemma SpentSleeps()
    ensures Accounted(SPENT_VIEW, {}) && SPENT_VIEW.CurrQueued() && SPENT_VIEW.rec[1] == OTHER
    ensures SPENT_VIEW.rec[2] == SPENT && !SPENT_VIEW.Queued(2)
    ensures SPENT_VIEW.In(ACTIVE, 1) && !SPENT_VIEW.In(EXPIRED, 1)
  {
    OtherRuns();
    SetRecInv(OTHER_VIEW, 2, SPENT);
  }

  /** The wake-up of an overdue task asks an OTHER task to give way, before which it is not
      to run. */
  lemma OverdueDisturbs(hz: Hz, slept: nat)
    ensures Accounted(SPENT_VIEW, {}) && !SPENT_VIEW.Queued(2) && RecOk(SPENT)
    ensures var w := TryToWakeUp(SPENT_VIEW, 2, hz, slept);
            && w.Inv() && w.curr == 1 && w.Queued(1) && w.Queued(2)
            && w.rec[1].needResched && !Before(w, 2, 1)
  {
    SpentSleeps();
    WakePreempts(SPENT_VIEW, 2, hz, slept);
    WakeKeeps(SPENT_VIEW, 2, hz, slept);
  }

  /** A fork with two trials left keeps one of them, for the child. */
  lemma ForkLosesTrial()
    ensures RecOk(FORKER) && ForkTrees.TrialsLeft(FORKER) == 2
    ensures var split := ForkSplit(FORKER);
            ForkTrees.TrialsLeft(KeepTick(split.parent)) == 0 && ForkTrees.TrialsLeft(split.child) == 1
  {
  }

  lemma TwoRun(x: Rec)
    requires RecOk(x) && x.policy.Other?
    ensures 0 <= x.prio < MAX_PRIO
    ensures var v := ToTail(OTHER_VIEW, 2, x, ACTIVE);
            v.Inv() && v.CurrQueued() && v.In(ACTIVE, 1) && v.In(ACTIVE, 2) && v.rec[1] == OTHER && v.rec[2] == x
  {
    hide View.Inv, ToTail;
    OtherRuns();
    InvShaped(OTHER_VIEW);
    TailKeeps(OTHER_VIEW, 2, x, ACTIVE);
    TailOthers(OTHER_VIEW, 2, x, ACTIVE, ACTIVE, 1);
  }

  /** Two set_user_nice calls, to 0 and to 1, after which the task at nice 1 runs first:
      the first call changes nothing, because the task was at nice 0 already. */
  lemma WorseNiceFirst()
    ensures HOG_VIEW.Inv() && HOG_VIEW.CurrQueued() && RecOk(HOG_VIEW.rec[2])
    ensures RecOk(SetUserNice(HOG_VIEW, 2, 0).rec[1])
    ensures var w := SetUserNice(SetUserNice(HOG_VIEW, 2, 0), 1, 1);
            w.Inv() && w.Queued(1) && w.Queued(2) && Nice(w.rec[2]) == 0 && Nice(w.rec[1]) == 1 && Before(w, 1, 2)
  {
    hide SetUserNice, ToTail, Before;
    TwoRun(HOG);
    NiceOrder(HOG_VIEW, 2, 1, 0, 1, 100);
    NiceSets(HOG_VIEW, 2, 0);
    NiceStays(HOG_VIEW, 2, 0, 1);
    NiceSets(SetUserNice(HOG_VIEW, 2, 0), 1, 1);
    NiceKeeps(HOG_VIEW, 2, 0);
    NiceStays(SetUserNice(HOG_VIEW, 2, 0), 1, 1, 2);
  }

  /** A waiting task that is raised above the running one does not make it give way. */
  lemma RaisedWaits()
    ensures LOW_VIEW.Inv() && LOW_VIEW.CurrQueued() && RecOk(LOW_VIEW.rec[2])
    ensures var w := SetUserNice(LOW_VIEW, 2, -20);
            && w.Inv() && w.curr == 1 && w.Queued(1) && w.Queued(2) && Before(w, 2, 1) && !w.rec[1].needResched
  {
    hide SetUserNice, ToTail, Before;
    TwoRun(LOW);
    NiceSets(LOW_VIEW, 2, -20);
    NiceStays(LOW_VIEW, 2, -20, 1);
    var w := SetUserNice(LOW_VIEW, 2, -20);
    ActiveOnly(LOW_VIEW, 2);
    ActiveOnly(w, 1);
    ActiveOnly(w, 2);
    ActiveOrder(w, 2, 1);
  }

  /** A task at nice 0 that yields to one at nice 19 takes over its priority, nineteen levels
      below its own. */
  lemma YieldLeavesRange()
    ensures LOW_VIEW.Inv() && LOW_VIEW.CurrQueued() && LOW_VIEW.Queued(1) && RecOk(LOW_VIEW.rec[1])
    ensures Ranks.Ranged(LOW_VIEW.rec[1])
    ensures 1 in YieldPlace(LOW_VIEW).rec && !Ranks.Ranged(YieldPlace(LOW_VIEW).rec[1])
  {
    hide YieldPlace, ToTail, EraseAll;
    TwoRun(LOW);
    var v := LOW_VIEW;
    ActiveOnly(v, 1);
    YieldPlaces(v);
    assert v.In(ACTIVE, 2);
    assert forall t :: t in v.rec && t != 1 && v.In(ACTIVE, t) ==> t == 2;
  }

  /** A runqueue with that sleeping task. */
  method Sleeping() returns (rq: Runqueue, p: Task)
    ensures rq.Valid() && rq.Known(p) && fresh(rq) && fresh(rq.task.Values) && rq.hz == 100
    ensures p.id == 1 != rq.idle && p.s == SLEEPER && p.onArray == None
  {
    hide Sound, View.Shaped, View.Inv, BackPointer;
    var boot := new Task(0, INIT);
    rq := new Runqueue(100, boot, 0);
    p := new Task(1, SLEEPER);
    CurrFacts(rq);
    SoundNewcomer(rq.view, rq.arrays, rq.active, rq.nrRunning, 1, SLEEPER);
    rq.Register(p, SetRec(rq.view, 1, SLEEPER));
  }

  /** Admitted and woken, it is lost: it is runnable, the wake-up reports failure, and no
      queue holds it. */
  method LoseSleeper() returns (rq: Runqueue, p: Task, woken: bool)
    ensures rq.Stray(p) && p.s.state.Running? && p.s.policy.Short? && !woken
  {
    hide Runqueue.Valid, Runqueue.Stray, Sound, View.Shaped, View.Queued, View.Inv, SchedSpec.SetScheduler, RecOk;
    rq, p := Sleeping();
    TaskFacts(rq, p);
    NowShort(rq.view);
    var verdict := rq.SetScheduler(p, ADMIT, 0);
    StrayFacts(rq, p);
    woken := rq.TryToWakeUp(p, 0);
  }

  lemma NowShort(v: View)
    requires v.Shaped() && 1 in v.rec && v.rec[1] == SLEEPER && !v.Queued(1)
    ensures RecOk(SLEEPER) && Check(SLEEPER, ADMIT) == Granted(Short)
    ensures SetScheduler(v, 1, ADMIT, 100, 0).Shaped() && 1 in SetScheduler(v, 1, ADMIT, 100, 0).rec
    ensures SetScheduler(v, 1, ADMIT, 100, 0).rec[1].policy.Short?
  {
  }
}
