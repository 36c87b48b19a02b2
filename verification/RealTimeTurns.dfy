/** Real-time tasks left to themselves: round-robin tasks of the best occupied priority take
    turns, a FIFO task at their head never gives way, and nobody else runs. */
module RealTimeTurns {
  import opened Lists
  import opened TaskModel
  import opened SchedSpec
  import opened SchedInvariant
  import opened SchedPick
  import opened Effects
  import ShortLiveness

  /** A real-time task is queued, the head of the first list runs, and the tasks of that list
      are runnable. */
  ghost predicate Urgent(v: View) {
    && v.Inv() && v.CurrQueued() && First(v.q[ACTIVE]) < MAX_RT_PRIO && v.curr == Head(v.q[ACTIVE])
    && forall t :: t in v.q[ACTIVE][First(v.q[ACTIVE])] ==> t in v.rec && v.rec[t].state.Running?
  }

  /** The list of the best real-time priority. */
  function Top(v: View): seq<Tid>
    requires v.Shaped() && First(v.q[ACTIVE]) < MAX_RT_PRIO
  {
    v.q[ACTIVE][First(v.q[ACTIVE])]
  }

  /** One timer tick and the schedule() it asks for. */
  function Beat(v: View, hz: Hz, toExpired: bool): View
    requires v.Shaped() && (v.curr != v.idle ==> RecOk(v.rec[v.curr]))
  {
    var u := Tick(v, hz, toExpired);
    if u.rec[u.curr].needResched then Schedule(u, false) else u
  }

  lemma Runner(v: View)
    requires Urgent(v)
    ensures var p := v.curr;
            && v.Shaped() && p in v.rec && v.In(ACTIVE, p) && v.Queued(p) && p != v.idle && RecOk(v.rec[p])
            && IsRealTime(v.rec[p].policy) && v.rec[p].state.Running? && v.rec[p].prio == First(v.q[ACTIVE])
            && Top(v) != [] && Top(v)[0] == p && Distinct(Top(v)) && v.RoleOf(p) == ACTIVE
            && forall t :: t in Top(v) ==> t in v.rec
  {
    HeadQueued(v, ACTIVE);
    QueuedHome(v, ACTIVE, First(v.q[ACTIVE]), v.curr);
    RecAt(v, v.curr);
    ListDistinct(v, ACTIVE, First(v.q[ACTIVE]));
  }

  /** schedule() picks the head of the first list. */
  lemma UrgentSchedule(u: View)
    requires u.Inv() && u.CurrQueued() && u.curr != u.idle && u.curr in u.rec && u.rec[u.curr].state.Running?
    requires First(u.q[ACTIVE]) < MAX_RT_PRIO
    ensures var w := Schedule(u, false);
            && w.Inv() && w.CurrQueued() && w.Shaped() && w.q == u.q && w.curr == Head(u.q[ACTIVE]) && w.idle == u.idle
            && w.rec == u.rec[u.curr := u.rec[u.curr].(needResched := false)]
  {
    ScheduleKeeps(u, false);
  }

  /** What the tick does to the list. */
  lemma UrgentTick(v: View, hz: Hz, toExpired: bool)
    requires Urgent(v)
    ensures v.Shaped() && v.curr in v.rec && RecOk(v.rec[v.curr]) && v.rec[v.curr].prio < MAX_PRIO
    ensures var u, p, x := Tick(v, hz, toExpired), v.curr, v.rec[v.curr];
            && u.Inv() && u.CurrQueued() && u.curr == p && u.idle == v.idle && p in u.rec
            && u.rec == v.rec[p := u.rec[p]] && u.rec[p].state.Running? && u.rec[p].policy == x.policy
            && (x.policy.Fifo? ==> u == v)
            && (x.policy.RoundRobin? && x.timeSlice != 1 ==> u.q == v.q && u.rec[p].timeSlice == Dec(x.timeSlice))
            && (x.policy.RoundRobin? && x.timeSlice == 1 ==>
                  && u.rec[p].timeSlice == TaskSlice(x.staticPrio, hz) && u.rec[p].needResched
                  && u == ToTail(v, p, u.rec[p], ACTIVE) && u.rec[p].prio == x.prio)
  {
    hide View.Inv, ToTail, Behind, TaskSlice, View.RoleOf, First, Head;
    Runner(v);
    InvShaped(v);
    TickKeeps(v, hz, toExpired);
  }

  /** Moving the head of the first list to its tail rotates it. */
  lemma Rotates(v: View, x: Rec)
    requires Urgent(v) && v.Shaped() && x.prio == First(v.q[ACTIVE])
    ensures 0 <= x.prio < MAX_PRIO && Top(v) != []
    ensures var u := ToTail(v, v.curr, x, ACTIVE);
            && First(u.q[ACTIVE]) == First(v.q[ACTIVE]) && u.q[ACTIVE][x.prio] == Top(v)[1..] + [Top(v)[0]]
            && Head(u.q[ACTIVE]) == (Top(v)[1..] + [Top(v)[0]])[0]
  {
    Runner(v);
    ShortLiveness.HeadOff(v.q[ACTIVE], First(v.q[ACTIVE]), v.curr);
    var e := EraseAll(v.q[ACTIVE], v.curr);
    assert ToTail(v, v.curr, x, ACTIVE).q[ACTIVE] == InsertAt(e, x.prio, |e[x.prio]|, v.curr);
  }

  /** What a beat does to the list of the best real-time priority: nothing to a FIFO head or
      within a slice, and otherwise the head goes to its tail, with a whole slice. */
  lemma UrgentBeat(v: View, hz: Hz, toExpired: bool)
    requires Urgent(v)
    ensures v.Shaped() && v.curr in v.rec && RecOk(v.rec[v.curr])
    ensures var w, p, x, q := Beat(v, hz, toExpired), v.curr, v.rec[v.curr], Top(v);
            && Urgent(w) && w.Shaped() && First(w.q[ACTIVE]) == First(v.q[ACTIVE])
            && p in w.rec && w.rec == v.rec[p := w.rec[p]] && w.rec[p].policy == x.policy && q != [] && q[0] == p
            && (x.policy.Fifo? ==> Top(w) == q && w.rec[p].timeSlice == x.timeSlice)
            && (x.policy.RoundRobin? && x.timeSlice != 1 ==> Top(w) == q && w.rec[p].timeSlice == Dec(x.timeSlice))
            && (x.policy.RoundRobin? && x.timeSlice == 1 ==>
                  Top(w) == q[1..] + [p] && w.rec[p].timeSlice == TaskSlice(x.staticPrio, hz))
            && IsRealTime(x.policy)
  {
    hide View.Inv, ToTail, Tick, Schedule, TaskSlice, First, Head, RecOk;
    Runner(v);
    UrgentTick(v, hz, toExpired);
    var u, x, q := Tick(v, hz, toExpired), v.rec[v.curr], Top(v);
    InvShaped(u);
    if x.policy.RoundRobin? && x.timeSlice == 1 {
      Rotates(v, u.rec[v.curr]);
    }
    assert First(u.q[ACTIVE]) == First(v.q[ACTIVE]);
    if u.rec[u.curr].needResched { UrgentSchedule(u); }
  }

  ghost function Beats(v: View, hz: Hz, toExpired: bool, n: nat): (w: View)
    requires Urgent(v)
    ensures Urgent(w)
    decreases n
  {
    if n == 0 then v
    else
      UrgentBeat(v, hz, toExpired);
      Beats(Beat(v, hz, toExpired), hz, toExpired, n - 1)
  }

  // ---- who runs -----------------------------------------------------------------------------------

  /** As long as these tasks are left to themselves, nobody else runs; and a FIFO task at the
      head runs alone. */
  lemma {:induction false} NobodyElse(v: View, hz: Hz, toExpired: bool, n: nat)
    requires Urgent(v)
    ensures v.Shaped()
    ensures var w := Beats(v, hz, toExpired, n);
            && w.Shaped() && First(w.q[ACTIVE]) == First(v.q[ACTIVE])
            && (forall t :: t in Top(w) <==> t in Top(v)) && w.curr in Top(v)
            && (v.rec[v.curr].policy.Fifo? ==> w.curr == v.curr)
    decreases n
  {
    hide Urgent, Beat, Top, First, View.Shaped;
    Runner(v);
    UrgentBeat(v, hz, toExpired);
    if n > 0 {
      var q, w := Top(v), Beat(v, hz, toExpired);
      assert q == [q[0]] + q[1..];
      Runner(w);
      NobodyElse(w, hz, toExpired, n - 1);
    }
  }

  /** The first i tasks of the list are round-robin tasks with something left to run. */
  ghost predicate Robins(v: View, i: nat)
    requires v.Shaped() && First(v.q[ACTIVE]) < MAX_RT_PRIO
  {
    && i <= |Top(v)|
    && forall t :: t in Top(v)[..i] ==> t in v.rec && v.rec[t].policy.RoundRobin? && v.rec[t].timeSlice > 0
  }

  /** The wait for the task at position i is one tick shorter after a beat. */
  lemma WaitAfterBeat(v: View, hz: Hz, toExpired: bool, i: nat)
    requires Urgent(v) && v.Shaped() && Robins(v, i) && 0 < i < |Top(v)|
    ensures v.curr in v.rec && RecOk(v.rec[v.curr]) && forall t :: t in Top(v) ==> t in v.rec
    ensures var w, j, q := Beat(v, hz, toExpired), if v.rec[v.curr].timeSlice > 1 then i else i - 1, Top(v);
            && Urgent(w) && w.Shaped() && j < |Top(w)| && Robins(w, j) && Top(w)[j] == q[i]
            && (forall t :: t in Top(w) ==> t in w.rec)
            && ShortLiveness.Wait(Top(w), w.rec, j) == ShortLiveness.Wait(q, v.rec, i) - 1
  {
    hide Urgent, Beat, Top, First, View.Shaped, RecOk;
    Runner(v);
    UrgentBeat(v, hz, toExpired);
    var q, w := Top(v), Beat(v, hz, toExpired);
    Runner(w);
    assert q[0] in q[..i];
    DistinctIndices(q, 0, i);
    if v.rec[v.curr].timeSlice > 1 {
      ShortLiveness.WaitTicked(q, v.rec, w.rec, i);
      StillRobins(q, v.rec, q, w.rec, i, 0);
    } else {
      ShortLiveness.WaitMoved(q, v.rec, Top(w), w.rec, i);
      StillRobins(q, v.rec, Top(w), w.rec, i - 1, 1);
    }
  }

  /** The policies stay what they were. */
  lemma StillRobins(q: seq<Tid>, rec: map<Tid, Rec>, r: seq<Tid>, now: map<Tid, Rec>, j: nat, d: nat)
    requires j + d <= |q| && j <= |r| && (forall k :: 0 <= k < j ==> r[k] == q[k + d])
    requires forall t :: t in q[..j + d] ==> t in rec && rec[t].policy.RoundRobin?
    requires forall t :: t in rec ==> t in now && now[t].policy == rec[t].policy
    ensures forall t :: t in r[..j] ==> t in now && now[t].policy.RoundRobin?
  {
    forall t | t in r[..j] ensures t in now && now[t].policy.RoundRobin? {
      var k :| 0 <= k < j && r[k] == t;
      assert q[..j + d][k + d] == t;
    }
  }

  /** A task behind i round-robin tasks gets its turn after exactly their slices, and not
      before. */
  lemma {:induction false} RobinTurn(v: View, hz: Hz, toExpired: bool, i: nat, m: nat)
    requires Urgent(v) && v.Shaped() && Robins(v, i) && i < |Top(v)| && forall t :: t in Top(v) ==> t in v.rec
    requires m <= ShortLiveness.Wait(Top(v), v.rec, i)
    ensures Beats(v, hz, toExpired, m).curr == Top(v)[i] <==> m == ShortLiveness.Wait(Top(v), v.rec, i)
    decreases m
  {
    hide Urgent, Beat, Top, First, View.Shaped, Robins;
    Runner(v);
    if i > 0 {
      DistinctIndices(Top(v), 0, i);
      WaitAfterBeat(v, hz, toExpired, i);
      if m > 0 {
        var j := if v.rec[v.curr].timeSlice > 1 then i else i - 1;
        RobinTurn(Beat(v, hz, toExpired), hz, toExpired, j, m - 1);
      }
    }
  }

  /** The next one: when the slice of a round-robin task is over, the task behind it runs. */
  lemma NextRobin(v: View, hz: Hz, toExpired: bool)
    requires Urgent(v) && v.Shaped() && |Top(v)| > 1 && v.curr in v.rec
    requires v.rec[v.curr].policy.RoundRobin? && v.rec[v.curr].timeSlice == 1
    ensures RecOk(v.rec[v.curr]) && Beat(v, hz, toExpired).curr == Top(v)[1]
  {
    hide Beat, Urgent, First;
    UrgentBeat(v, hz, toExpired);
    Runner(Beat(v, hz, toExpired));
  }

  /** All tasks of the list are round-robin tasks with a slice of at most `limit` ticks. */
  ghost predicate AllRobins(v: View, limit: int) {
    && Urgent(v)
    && forall t :: t in Top(v) ==> t in v.rec && v.rec[t].policy.RoundRobin? && 1 <= v.rec[t].timeSlice <= limit
  }

  lemma BeatRobins(v: View, hz: Hz, toExpired: bool, limit: int)
    requires AllRobins(v, limit) && MaxSlice(hz) <= limit
    ensures v.Shaped() && v.curr in v.rec && RecOk(v.rec[v.curr])
    ensures var w := Beat(v, hz, toExpired);
            AllRobins(w, limit) && w.Shaped() && |Top(w)| == |Top(v)| && forall t :: t in Top(w) <==> t in Top(v)
  {
    hide Urgent, Beat, First, View.Shaped, RecOk, TaskSlice, MaxSlice;
    Runner(v);
    UrgentBeat(v, hz, toExpired);
    var q, w, x := Top(v), Beat(v, hz, toExpired), v.rec[v.curr];
    Runner(w);
    assert TaskSlice(x.staticPrio, hz) > 0 && TaskSlice(x.staticPrio, hz) <= MaxSlice(hz) by { SliceOk(x, hz); }
    assert q == [q[0]] + q[1..];
  }

  lemma SliceOk(x: Rec, hz: Hz)
    requires RecOk(x)
    ensures 0 < TaskSlice(x.staticPrio, hz) <= MaxSlice(hz)
  {
    SliceRange(x.staticPrio, hz);
  }

  lemma {:induction false} StayRobins(v: View, hz: Hz, toExpired: bool, limit: int, k: nat)
    requires AllRobins(v, limit) && MaxSlice(hz) <= limit
    ensures v.Shaped() && Urgent(v)
    ensures var w := Beats(v, hz, toExpired, k);
            AllRobins(w, limit) && w.Shaped() && |Top(w)| == |Top(v)| && forall t :: t in Top(w) <==> t in Top(v)
    decreases k
  {
    hide Urgent, Beat, Top, First;
    Runner(v);
    if k > 0 {
      BeatRobins(v, hz, toExpired, limit);
      StayRobins(Beat(v, hz, toExpired), hz, toExpired, limit, k - 1);
    }
  }

  lemma {:induction false} BeatsAdd(v: View, hz: Hz, toExpired: bool, k: nat, m: nat)
    requires Urgent(v)
    ensures Beats(Beats(v, hz, toExpired, k), hz, toExpired, m) == Beats(v, hz, toExpired, k + m)
    decreases k
  {
    hide Urgent, Beat;
    if k > 0 {
      UrgentBeat(v, hz, toExpired);
      BeatsAdd(Beat(v, hz, toExpired), hz, toExpired, k - 1, m);
    }
  }

  /** No round-robin task of the best priority starves: at any time each of them runs again
      within the slices that all of them may have. */
  lemma EveryRobin(v: View, hz: Hz, toExpired: bool, limit: nat, t: Tid, k: nat) returns (m: nat)
    requires AllRobins(v, limit) && MaxSlice(hz) <= limit && v.Shaped()
    requires First(v.q[ACTIVE]) < MAX_RT_PRIO && t in Top(v)
    ensures k <= m < k + |Top(v)| * limit && Beats(v, hz, toExpired, m).curr == t
  {
    hide Urgent, Beat, Top, First, Beats, ShortLiveness.Wait;
    StayRobins(v, hz, toExpired, limit, k);
    var w := Beats(v, hz, toExpired, k);
    Runner(w);
    var i :| 0 <= i < |Top(w)| && Top(w)[i] == t;
    m := ShortLiveness.Wait(Top(w), w.rec, i);
    ShortLiveness.WaitBound(Top(w), w.rec, i, limit);
    RobinTurn(w, hz, toExpired, i, m);
    BeatsAdd(v, hz, toExpired, k, m);
    Below(i, |Top(w)|, limit);
    m := k + m;
  }

  lemma Below(i: nat, n: nat, limit: nat)
    requires i < n && limit > 0
    ensures i * limit < n * limit
  {
  }
}
