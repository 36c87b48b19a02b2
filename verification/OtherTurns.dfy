/** OTHER tasks left to themselves, when a task that has used up its slice expires: they run
    in the order of the active array, the arrays are switched when it has run dry, and so
    every one of them runs again and again. */
module OtherTurns {
  import opened Lists
  import opened TaskModel
  import opened SchedSpec
  import opened SchedInvariant
  import opened SchedPick
  import ShortLiveness

  // ---- the lists of an array in a row --------------------------------------------------------

  function Flat(qs: Queues): seq<Tid> {
    if qs == [] then [] else qs[0] + Flat(qs[1..])
  }

  lemma {:induction false} FlatHas(qs: Queues, t: Tid)
    ensures t in Flat(qs) <==> exists k :: 0 <= k < |qs| && t in qs[k]
  {
    if qs != [] {
      FlatHas(qs[1..], t);
      if k :| 0 <= k < |qs| && t in qs[k] { assert k > 0 ==> t in qs[1..][k - 1]; }
      if k :| 0 <= k < |qs[1..]| && t in qs[1..][k] { assert t in qs[k + 1]; }
    }
  }

  lemma {:induction false} FlatSize(qs: Queues)
    ensures |Flat(qs)| == Total(qs) && (Flat(qs) == [] <==> Vacant(qs))
  {
    if qs != [] { FlatSize(qs[1..]); }
    TotalPositive(qs);
  }

  lemma {:induction false} DistinctTwo(a: seq<Tid>, b: seq<Tid>)
    requires Distinct(a) && Distinct(b) && forall t :: t in a ==> t !in b
    ensures Distinct(a + b)
  {
    if a != [] {
      DistinctTwo(a[1..], b);
      assert (a + b)[1..] == a[1..] + b;
    } else {
      assert a + b == b;
    }
  }

  lemma {:induction false} FlatDistinct(qs: Queues)
    requires forall k :: 0 <= k < |qs| ==> Distinct(qs[k])
    requires forall j, k, t :: 0 <= j < k < |qs| && t in qs[j] ==> t !in qs[k]
    ensures Distinct(Flat(qs))
  {
    if qs != [] {
      forall j, k, t | 0 <= j < k < |qs[1..]| && t in qs[1..][j] ensures t !in qs[1..][k] {
        assert t in qs[j + 1] && qs[1..][k] == qs[k + 1];
      }
      FlatDistinct(qs[1..]);
      forall t | t in qs[0] ensures t !in Flat(qs[1..]) {
        FlatHas(qs[1..], t);
      }
      DistinctTwo(qs[0], Flat(qs[1..]));
    }
  }

  /** p is the head of the first occupied list and nowhere else. */
  ghost predicate Leads(qs: Queues, p: Tid, f: nat) {
    && f < |qs| && qs[f] != [] && qs[f][0] == p && p !in qs[f][1..]
    && (forall j :: 0 <= j < f ==> qs[j] == []) && forall j :: f < j < |qs| ==> p !in qs[j]
  }

  lemma {:induction false} FlatOff(qs: Queues, p: Tid, f: nat)
    requires Leads(qs, p, f)
    ensures Flat(qs) != [] && Flat(qs)[0] == p && Flat(EraseAll(qs, p)) == Flat(qs)[1..]
    decreases f
  {
    var e := EraseAll(qs, p);
    if f == 0 {
      assert e[1..] == qs[1..];
      assert e[0] == qs[0][1..];
    } else {
      FlatOff(qs[1..], p, f - 1);
      assert e[1..] == EraseAll(qs[1..], p);
    }
  }

  /** s is r with p added somewhere. */
  ghost predicate Joined(s: seq<Tid>, r: seq<Tid>, p: Tid) {
    |s| == |r| + 1 && forall t :: t in s <==> t in r || t == p
  }

  lemma FlatJoined(qs: Queues, k: nat, i: nat, p: Tid)
    requires k < |qs| && i <= |qs[k]|
    ensures Joined(Flat(InsertAt(qs, k, i, p)), Flat(qs), p)
  {
    var rs := InsertAt(qs, k, i, p);
    FlatSize(qs);
    FlatSize(rs);
    TotalUpdate(qs, k, rs[k]);
    forall t ensures t in Flat(rs) <==> t in Flat(qs) || t == p {
      FlatHas(rs, t);
      FlatHas(qs, t);
      if t != p { InsertHas(qs[k], i, p, t); }
      assert forall j :: 0 <= j < |qs| && j != k ==> rs[j] == qs[j];
      assert p in rs[k];
    }
  }

  // ---- states and steps -----------------------------------------------------------------------

  function Line(v: View): seq<Tid>
    requires v.Shaped()
  {
    Flat(v.q[ACTIVE])
  }

  function Spent(v: View): seq<Tid>
    requires v.Shaped()
  {
    Flat(v.q[EXPIRED])
  }

  /** Nothing but OTHER and overdue tasks is queued, all of them runnable, and there are
      OTHER tasks: the head of the active array runs. */
  ghost predicate Steady(v: View) {
    Calm(v) && !Vacant(v.q[ACTIVE]) && v.curr == Head(v.q[ACTIVE])
  }

  ghost predicate Calm(v: View) {
    && v.Inv() && v.CurrQueued() && Vacant(v.q[SHORT_Q])
    && forall t :: t in v.rec && v.Queued(t) ==> v.rec[t].state.Running? && Class(v.rec[t]) != 0
  }

  /** One timer tick, at which a spent task expires, and the schedule() it asks for. */
  function Beat(v: View, hz: Hz): View
    requires v.Shaped() && (v.curr != v.idle ==> RecOk(v.rec[v.curr]))
  {
    var u := Tick(v, hz, true);
    if u.rec[u.curr].needResched then Schedule(u, false) else u
  }

  lemma Runner(v: View)
    requires Steady(v)
    ensures var p := v.curr;
            && v.Shaped() && p in v.rec && v.In(ACTIVE, p) && v.Queued(p) && p != v.idle && RecOk(v.rec[p])
            && v.rec[p].policy.Other? && v.rec[p].state.Running?
            && Leads(v.q[ACTIVE], p, First(v.q[ACTIVE])) && forall k :: 0 <= k < MAX_PRIO ==> p !in v.q[EXPIRED][k]
  {
    var p, f := v.curr, First(v.q[ACTIVE]);
    HeadQueued(v, ACTIVE);
    QueuedHome(v, ACTIVE, f, p);
    assert Cell(v.q[ACTIVE][f], ACTIVE, f, v.rec);
    forall j | f < j < MAX_PRIO ensures p !in v.q[ACTIVE][j] {
      if p in v.q[ACTIVE][j] { QueuedHome(v, ACTIVE, j, p); }
    }
    forall k | 0 <= k < MAX_PRIO ensures p !in v.q[EXPIRED][k] {
      if p in v.q[EXPIRED][k] {
        QueuedHome(v, EXPIRED, k, p);
        OneRole(v, ACTIVE, EXPIRED, p);
      }
    }
  }

  /** The fields after the tick. */
  function Ticked(x: Rec, hz: Hz): Rec { TickOther(x, hz, true).rec }

  lemma TickedFacts(x: Rec, hz: Hz)
    requires RecOk(x) && x.policy.Other? && x.state.Running?
    ensures var y := Ticked(x, hz);
            && RecOk(y) && y.policy.Other? && y.state.Running? && y.staticPrio == x.staticPrio && Class(y) != 0
            && Fits(EXPIRED, y) && Fits(ACTIVE, y)
            && (x.timeSlice != 1 ==> y.timeSlice == Dec(x.timeSlice) && y.prio == x.prio)
            && (x.timeSlice == 1 ==> y.timeSlice == TaskSlice(x.staticPrio, hz) && y.needResched)
  {
  }

  lemma OtherTick(v: View, hz: Hz)
    requires Steady(v)
    ensures v.Shaped() && v.curr in v.rec && RecOk(v.rec[v.curr])
    ensures var x := v.rec[v.curr];
            Tick(v, hz, true) == if x.timeSlice != 1 then SetRec(v, v.curr, Ticked(x, hz))
                                 else ToTail(v, v.curr, Ticked(x, hz), EXPIRED)
  {
    Runner(v);
  }

  /** The lists after the tick that ends a slice. */
  lemma SpentLists(v: View, x: Rec)
    requires Steady(v) && RecOk(x)
    ensures v.Shaped()
    ensures var u, k := ToTail(v, v.curr, x, EXPIRED), x.prio;
            && u.q[ACTIVE] == EraseAll(v.q[ACTIVE], v.curr) && Vacant(u.q[SHORT_Q])
            && u.q[EXPIRED] == InsertAt(v.q[EXPIRED], k, |v.q[EXPIRED][k]|, v.curr)
  {
    Runner(v);
    var u := ToTail(v, v.curr, x, EXPIRED);
    assert EraseAll(v.q[EXPIRED], v.curr) == v.q[EXPIRED];
    assert EraseAll(v.q[SHORT_Q], v.curr) == v.q[SHORT_Q];
  }

  /** Between the tick and schedule(). */
  ghost predicate Due(u: View) {
    Calm(u) && u.curr != u.idle && !(Vacant(u.q[ACTIVE]) && Vacant(u.q[EXPIRED]))
  }

  lemma DueSchedule(u: View)
    requires Due(u)
    ensures u.Shaped() && u.curr in u.rec
    ensures var w := Schedule(u, false);
            && Steady(w) && w.idle == u.idle && w.rec == u.rec[u.curr := u.rec[u.curr].(needResched := false)]
            && w.q[ACTIVE] == (if Vacant(u.q[ACTIVE]) then u.q[EXPIRED] else u.q[ACTIVE])
            && w.q[EXPIRED] == (if Vacant(u.q[ACTIVE]) then u.q[ACTIVE] else u.q[EXPIRED])
  {
    hide View.Inv, Pick, View.Queued, View.In, Class, First, FirstFrom;
    InvShaped(u);
    ScheduleKeeps(u, false);
    var s, w := SwitchArrays(u), Schedule(u, false);
    RunsOn(u);
    DuePick(u);
    var x := s.rec[u.curr].(needResched := false);
    forall t | t in w.rec && w.Queued(t) ensures w.rec[t].state.Running? && Class(w.rec[t]) != 0 {
      SwitchQueued(u, t);
      ShortLiveness.ClearedIn(s, u.curr, x, Pick(s), t);
      ShortLiveness.SameClass(s.rec[u.curr], x);
    }
  }

  lemma RunsOn(u: View)
    requires Due(u)
    ensures u.Shaped() && u.curr in u.rec && Leave(u, false) == u && !Empty(u)
  {
  }

  lemma DuePick(u: View)
    requires Due(u)
    ensures var s := SwitchArrays(u);
            && s.Inv() && s.rec == u.rec && s.curr == u.curr && s.idle == u.idle
            && !Vacant(s.q[ACTIVE]) && Pick(s) == Head(s.q[ACTIVE]) && Pick(s) in s.rec && s.q[SHORT_Q] == u.q[SHORT_Q]
  {
    hide View.Inv;
    InvShaped(u);
    SwitchKeeps(u);
    var s := SwitchArrays(u);
    HeadClass(s, ACTIVE);
    var h := Head(s.q[ACTIVE]);
    SwitchQueued(u, h);
  }

  /** The tick leaves a state in which schedule() can choose. */
  lemma TickDue(v: View, hz: Hz)
    requires Steady(v)
    ensures v.Shaped() && v.curr in v.rec && RecOk(v.rec[v.curr])
    ensures var u := Tick(v, hz, true);
            && Due(u) && u.curr == v.curr && u.idle == v.idle && u.rec == v.rec[v.curr := Ticked(v.rec[v.curr], hz)]
  {
    hide View.Inv, Head, ToTail, Ticked;
    Runner(v);
    OtherTick(v, hz);
    var x, y, u := v.rec[v.curr], Ticked(v.rec[v.curr], hz), Tick(v, hz, true);
    TickedFacts(x, hz);
    TickKeeps(v, hz, true);
    if x.timeSlice == 1 {
      SpentLists(v, y);
      FlatSize(u.q[EXPIRED]);
      FlatJoined(v.q[EXPIRED], y.prio, |v.q[EXPIRED][y.prio]|, v.curr);
    }
    forall t | t in u.rec && u.Queued(t) ensures u.rec[t].state.Running? && Class(u.rec[t]) != 0 {
      if t != v.curr { TickOthers(v, hz, true, t); }
    }
  }

  /** A beat of a running slice asks for nothing. */
  lemma StaySteady(v: View, y: Rec)
    requires Steady(v) && v.Shaped() && v.curr in v.rec && Due(SetRec(v, v.curr, y))
    ensures Steady(SetRec(v, v.curr, y))
  {
  }

  /** The arrays after a beat. */
  lemma BeatArrays(v: View, hz: Hz)
    requires Steady(v)
    ensures v.Shaped() && v.curr in v.rec && RecOk(v.rec[v.curr])
    ensures var w, u, p := Beat(v, hz), Tick(v, hz, true), v.curr;
            && Steady(w) && w.Shaped() && u.Shaped() && w.rec.Keys == v.rec.Keys && w.rec == v.rec[p := w.rec[p]]
            && w.rec[p].timeSlice == Ticked(v.rec[p], hz).timeSlice && w.rec[p].staticPrio == v.rec[p].staticPrio
            && (Vacant(u.q[ACTIVE]) ==> w.q[ACTIVE] == u.q[EXPIRED] && w.q[EXPIRED] == u.q[ACTIVE])
            && (!Vacant(u.q[ACTIVE]) ==> w.q[ACTIVE] == u.q[ACTIVE] && w.q[EXPIRED] == u.q[EXPIRED])
  {
    hide View.Inv, Head, ToTail, Ticked, Class, Tick, Schedule, View.Queued, Vacant, RecOk, View.CurrQueued;
    Runner(v);
    TickDue(v, hz);
    OtherTick(v, hz);
    var x, u := v.rec[v.curr], Tick(v, hz, true);
    TickedFacts(x, hz);
    if u.rec[u.curr].needResched {
      DueSchedule(u);
      InvShaped(Beat(v, hz));
    } else {
      StaySteady(v, Ticked(x, hz));
    }
  }

  /** What a beat does to the line of waiting tasks and to the tasks that have had their
      turn: the slice of the running task gets shorter, or it leaves the line and, when it
      was the last, the others start again. */
  lemma BeatLines(v: View, hz: Hz)
    requires Steady(v)
    ensures v.Shaped() && v.curr in v.rec && RecOk(v.rec[v.curr])
    ensures var w, p, x, line := Beat(v, hz), v.curr, v.rec[v.curr], Line(v);
            && Steady(w) && w.Shaped() && w.rec.Keys == v.rec.Keys && w.rec == v.rec[p := w.rec[p]]
            && line != [] && line[0] == p && w.rec[p].staticPrio == x.staticPrio
            && if x.timeSlice != 1 then
                 w.rec[p].timeSlice == Dec(x.timeSlice) && Line(w) == line && Spent(w) == Spent(v)
               else
                 && w.rec[p].timeSlice == TaskSlice(x.staticPrio, hz)
                 && if |line| > 1 then Line(w) == line[1..] && Joined(Spent(w), Spent(v), p)
                    else Spent(w) == [] && Joined(Line(w), Spent(v), p)
  {
    hide View.Inv, Head, ToTail, Ticked, Class, Tick, Beat, View.Queued, Leads, Joined, Steady, Vacant, Flat, InsertAt;
    Runner(v);
    BeatArrays(v, hz);
    OtherTick(v, hz);
    var p, x, y, u := v.curr, v.rec[v.curr], Ticked(v.rec[v.curr], hz), Tick(v, hz, true);
    TickedFacts(x, hz);
    FlatOff(v.q[ACTIVE], p, First(v.q[ACTIVE]));
    FlatSize(u.q[ACTIVE]);
    if x.timeSlice == 1 {
      SpentLists(v, y);
      FlatJoined(v.q[EXPIRED], y.prio, |v.q[EXPIRED][y.prio]|, p);
    }
  }

  ghost function Beats(v: View, hz: Hz, n: nat): (w: View)
    requires Steady(v)
    ensures Steady(w)
    decreases n
  {
    if n == 0 then v
    else
      BeatLines(v, hz);
      Beats(Beat(v, hz), hz, n - 1)
  }

  // ---- turns ------------------------------------------------------------------------------------

  predicate Lined(v: View, t: Tid)
    requires v.Shaped()
  {
    t in Line(v) || t in Spent(v)
  }

  function Size(v: View): nat
    requires v.Shaped()
  {
    |Line(v)| + |Spent(v)|
  }

  /** Every waiting task has a slice, of at most `limit` ticks. */
  ghost predicate Fair(v: View, limit: int) {
    && Steady(v) && Distinct(Line(v))
    && forall t :: Lined(v, t) ==> t in v.rec && RecOk(v.rec[t]) && 1 <= v.rec[t].timeSlice <= limit
  }

  /** In a steady state only the slices are left to ask for. */
  lemma FairIff(v: View, limit: int)
    requires Steady(v)
    ensures v.Shaped() && (forall t :: Lined(v, t) ==> t in v.rec)
    ensures Fair(v, limit) <==> forall t :: Lined(v, t) ==> 1 <= v.rec[t].timeSlice <= limit
  {
    hide Steady, Flat;
    assert v.Inv() by { SteadyInv(v); }
    forall t | Lined(v, t) ensures t in v.rec && RecOk(v.rec[t]) {
      FlatHas(v.q[ACTIVE], t);
      FlatHas(v.q[EXPIRED], t);
      if k :| 0 <= k < MAX_PRIO && t in v.q[ACTIVE][k] { QueuedHome(v, ACTIVE, k, t); RecAt(v, t); }
      if k :| 0 <= k < MAX_PRIO && t in v.q[EXPIRED][k] { QueuedHome(v, EXPIRED, k, t); RecAt(v, t); }
    }
    forall k | 0 <= k < MAX_PRIO ensures Distinct(v.q[ACTIVE][k]) { assert Cell(v.q[ACTIVE][k], ACTIVE, k, v.rec); }
    forall j, k, t | 0 <= j < k < MAX_PRIO && t in v.q[ACTIVE][j] ensures t !in v.q[ACTIVE][k] {
      QueuedHome(v, ACTIVE, j, t);
      if t in v.q[ACTIVE][k] { QueuedHome(v, ACTIVE, k, t); }
    }
    FlatDistinct(v.q[ACTIVE]);
  }

  lemma SteadyInv(v: View)
    requires Steady(v)
    ensures v.Inv() && v.Shaped()
  {
  }

  lemma BeatFair(v: View, hz: Hz, limit: int)
    requires Fair(v, limit) && MaxSlice(hz) <= limit
    ensures v.Shaped() && v.curr in v.rec && RecOk(v.rec[v.curr])
    ensures var w := Beat(v, hz);
            && Fair(w, limit) && w.Shaped() && Size(w) == Size(v) && forall t :: Lined(w, t) <==> Lined(v, t)
  {
    hide Steady, Beat, Flat, RecOk, TaskSlice, MaxSlice;
    BeatLines(v, hz);
    var w := Beat(v, hz);
    assert Lined(v, v.curr) by { assert Line(v)[0] in Line(v); }
    var x := v.rec[v.curr];
    SlicesUpTo(x, hz);
    assert Line(v) == [v.curr] + Line(v)[1..];
    FairIff(w, limit);
  }

  lemma SlicesUpTo(x: Rec, hz: Hz)
    requires RecOk(x)
    ensures 1 <= TaskSlice(x.staticPrio, hz) <= MaxSlice(hz)
  {
    SliceRange(x.staticPrio, hz);
  }

  lemma FairFacts(v: View, limit: int)
    requires Fair(v, limit)
    ensures Steady(v) && v.Shaped() && Distinct(Line(v)) && Line(v) != [] && v.curr == Line(v)[0]
    ensures forall t :: t in Line(v) ==> t in v.rec && 1 <= v.rec[t].timeSlice <= limit
  {
    hide Steady, Flat, RecOk;
    BeatLines(v, 100);
    assert forall t :: t in Line(v) ==> Lined(v, t);
  }

  /** The wait for the task at position i, or for the end of the line, is one tick shorter
      after a beat. */
  lemma WaitAfterBeat(v: View, hz: Hz, limit: int, i: nat)
    requires Fair(v, limit) && MaxSlice(hz) <= limit && v.Shaped() && 0 < i <= |Line(v)|
    ensures v.curr in v.rec && RecOk(v.rec[v.curr]) && forall t :: t in Line(v) ==> t in v.rec
    ensures var w, j, line := Beat(v, hz), if v.rec[v.curr].timeSlice > 1 then i else i - 1, Line(v);
            && Fair(w, limit) && w.Shaped() && j <= |Line(w)| && (forall t :: t in Line(w) ==> t in w.rec)
            && ShortLiveness.Wait(Line(w), w.rec, j) == ShortLiveness.Wait(line, v.rec, i) - 1
            && (i < |line| ==> j < |Line(w)| && Line(w)[j] == line[i])
            && (i == |line| && j > 0 ==> j == |Line(w)|) && (j == 0 && i == |line| ==> Spent(w) == [])
  {
    hide Steady, Beat, Flat, RecOk, Joined, Fair, Size, Lined, Dec;
    FairFacts(v, limit);
    BeatLines(v, hz);
    BeatFair(v, hz, limit);
    var line, w := Line(v), Beat(v, hz);
    FairFacts(w, limit);
    assert line[0] in line;
    LessOne(v.rec[v.curr].timeSlice);
    if v.rec[v.curr].timeSlice > 1 {
      ShortLiveness.WaitTicked(line, v.rec, w.rec, i);
    } else if |line| > 1 {
      ShortLiveness.WaitMoved(line, v.rec, Line(w), w.rec, i);
    } else {
      assert ShortLiveness.Wait(line[1..], v.rec, 0) == 0;
    }
  }

  lemma LessOne(w: Word)
    requires w > 0
    ensures Dec(w) == w - 1
  {
  }

  /** A task in the active array runs after exactly the slices of the tasks ahead of it. */
  lemma {:induction false} OtherTurn(v: View, hz: Hz, limit: int, i: nat, m: nat)
    requires Fair(v, limit) && MaxSlice(hz) <= limit && v.Shaped() && i < |Line(v)|
    requires (forall t :: t in Line(v) ==> t in v.rec) && m <= ShortLiveness.Wait(Line(v), v.rec, i)
    ensures Steady(v) && (Beats(v, hz, m).curr == Line(v)[i] <==> m == ShortLiveness.Wait(Line(v), v.rec, i))
    decreases m
  {
    hide Steady, Beat, Line, RecOk, Fair;
    FairFacts(v, limit);
    if i > 0 {
      DistinctIndices(Line(v), 0, i);
      WaitAfterBeat(v, hz, limit, i);
      if m > 0 {
        OtherTurn(Beat(v, hz), hz, limit, if v.rec[v.curr].timeSlice > 1 then i else i - 1, m - 1);
      }
    }
  }

  /** When the slices of all tasks in the active array are used up, every task is back in
      it, and none is expired. */
  lemma {:induction false} EpochEnds(v: View, hz: Hz, limit: int)
    requires Fair(v, limit) && MaxSlice(hz) <= limit && v.Shaped() && forall t :: t in Line(v) ==> t in v.rec
    ensures Steady(v)
    ensures var w := Beats(v, hz, ShortLiveness.Wait(Line(v), v.rec, |Line(v)|));
            && Fair(w, limit) && w.Shaped() && Spent(w) == [] && Size(w) == Size(v)
            && forall t :: Lined(w, t) <==> Lined(v, t)
    decreases ShortLiveness.Wait(Line(v), v.rec, |Line(v)|)
  {
    hide Steady, Beat, Line, Spent, RecOk, Fair, Lined, Size, ShortLiveness.Wait;
    FairFacts(v, limit);
    BeatFair(v, hz, limit);
    WaitAfterBeat(v, hz, limit, |Line(v)|);
    var w := Beat(v, hz);
    FairFacts(w, limit);
    if v.rec[v.curr].timeSlice > 1 || |Line(v)| > 1 {
      EpochEnds(w, hz, limit);
    } else {
      NoWait(Line(w), w.rec);
      assert Beats(v, hz, 1) == Beats(w, hz, 0) == w;
    }
  }

  lemma NoWait(q: seq<Tid>, rec: map<Tid, Rec>)
    requires forall t :: t in q ==> t in rec
    ensures ShortLiveness.Wait(q, rec, 0) == 0
  {
  }

  lemma {:induction false} BeatsFair(v: View, hz: Hz, limit: int, k: nat)
    requires Fair(v, limit) && MaxSlice(hz) <= limit
    ensures v.Shaped()
    ensures var w := Beats(v, hz, k);
            && Fair(w, limit) && w.Shaped() && Size(w) == Size(v) && forall t :: Lined(w, t) <==> Lined(v, t)
    decreases k
  {
    hide Steady, Beat, Fair, Lined, Size;
    assert Steady(v) by { FairSteady(v, limit); }
    if k > 0 {
      BeatFair(v, hz, limit);
      BeatsFair(Beat(v, hz), hz, limit, k - 1);
    } else {
      SteadyInv(v);
    }
  }

  lemma FairSteady(v: View, limit: int)
    requires Fair(v, limit)
    ensures Steady(v)
  {
  }

  lemma {:induction false} BeatsAdd(v: View, hz: Hz, k: nat, m: nat)
    requires Steady(v)
    ensures Beats(Beats(v, hz, k), hz, m) == Beats(v, hz, k + m)
    decreases k
  {
    hide Steady, Beat;
    if k > 0 {
      BeatLines(v, hz);
      BeatsAdd(Beat(v, hz), hz, k - 1, m);
    }
  }

  /** From a fair state every task runs within two rounds. */
  lemma FirstTurn(v: View, hz: Hz, limit: nat, t: Tid) returns (m: nat)
    requires Fair(v, limit) && MaxSlice(hz) <= limit && v.Shaped() && Lined(v, t)
    ensures Steady(v) && m < 2 * Size(v) * limit && Beats(v, hz, m).curr == t
  {
    hide Steady, Line, Spent, RecOk, Fair, ShortLiveness.Wait, Beats;
    FairFacts(v, limit);
    if t in Line(v) {
      m := LineTurn(v, hz, limit, t);
      TwoRounds(0, |Line(v)|, Size(v), limit, 0, m);
    } else {
      EpochEnds(v, hz, limit);
      var e := ShortLiveness.Wait(Line(v), v.rec, |Line(v)|);
      ShortLiveness.WaitBound(Line(v), v.rec, |Line(v)|, limit);
      var w := Beats(v, hz, e);
      assert Lined(w, t);
      m := LineTurn(w, hz, limit, t);
      BeatsAdd(v, hz, e, m);
      TwoRounds(|Line(v)|, |Line(w)|, Size(v), limit, e, m);
      m := e + m;
    }
  }

  lemma Longer(a: nat, n: nat, limit: nat)
    requires a <= n
    ensures a * limit <= n * limit && 0 <= n * limit
  {
  }

  lemma TwoRounds(a: nat, b: nat, n: nat, limit: nat, e: nat, m: nat)
    requires a <= n && b <= n && e <= a * limit && m < b * limit
    ensures e + m < 2 * n * limit
  {
    Longer(a, n, limit);
    Longer(b, n, limit);
  }

  lemma LineTurn(v: View, hz: Hz, limit: nat, t: Tid) returns (m: nat)
    requires Fair(v, limit) && MaxSlice(hz) <= limit && v.Shaped() && t in Line(v)
    ensures Steady(v) && m < |Line(v)| * limit && Beats(v, hz, m).curr == t
  {
    hide Steady, Line, RecOk, Fair;
    FairFacts(v, limit);
    var i :| 0 <= i < |Line(v)| && Line(v)[i] == t;
    m := ShortLiveness.Wait(Line(v), v.rec, i);
    ShortLiveness.WaitBound(Line(v), v.rec, i, limit);
    OtherTurn(v, hz, limit, i, m);
    assert (i + 1) * limit <= |Line(v)| * limit by { Longer(i + 1, |Line(v)|, limit); }
  }

  /** No OTHER task starves when spent tasks expire: at every time each of them runs again
      within twice the slices that all of them may have. */
  lemma EveryTurn(v: View, hz: Hz, limit: nat, t: Tid, k: nat) returns (m: nat)
    requires Fair(v, limit) && MaxSlice(hz) <= limit && v.Shaped() && Lined(v, t)
    ensures Steady(v) && k <= m < k + 2 * Size(v) * limit && Beats(v, hz, m).curr == t
  {
    hide Steady, RecOk, Fair, Lined, Size, Beats;
    FairFacts(v, limit);
    BeatsFair(v, hz, limit, k);
    m := FirstTurn(Beats(v, hz, k), hz, limit, t);
    BeatsAdd(v, hz, k, m);
    m := k + m;
  }
}
