/** get_pid: the next free process id in cyclic order, with a cache that lets most calls
    skip the scan over all tasks. */
module PidAllocator {

  const PID_MAX := 0x8000

  /** Ids below this are not handed out again after a wrap-around. */
  const RESERVED := 300

  /** The four ids a task keeps in use. */
  datatype Ids = Ids(pid: int, pgrp: int, tgid: int, session: int)

  /** last_pid and next_safe. */
  datatype Cache = Cache(last: int, safe: int)

  predicate Has(t: Ids, x: int) { t.pid == x || t.pgrp == x || t.tgid == x || t.session == x }

  ghost predicate UsedBefore(tasks: seq<Ids>, k: nat, x: int)
    requires k <= |tasks|
  {
    exists i :: 0 <= i < k && Has(tasks[i], x)
  }

  ghost predicate Used(tasks: seq<Ids>, x: int) { UsedBefore(tasks, |tasks|, x) }

  function Succ(x: int): int { if x + 1 >= PID_MAX then RESERVED else x + 1 }

  predicate InRange(c: Cache) { 0 <= c.last < PID_MAX && c.safe <= PID_MAX }

  /** What the cache promises: no id in use lies strictly between last_pid and next_safe. */
  ghost predicate Gap(tasks: seq<Ids>, c: Cache) {
    forall x :: c.last < x < c.safe ==> !Used(tasks, x)
  }

  /** x is passed over on the way from `begin`, exclusive, to `end`, exclusive. */
  predicate Passed(begin: int, x: int, end: int) {
    if begin < end then begin < x < end else begin < x < PID_MAX || RESERVED <= x < end
  }

  /** Every id between begin and end is in use. */
  ghost predicate AllUsed(tasks: seq<Ids>, begin: int, end: int) {
    forall x :: Passed(begin, x, end) ==> Used(tasks, x)
  }

  /** safe is the least id in use above last, or PID_MAX. */
  ghost predicate Least(tasks: seq<Ids>, c: Cache) {
    Gap(tasks, c) && (c.safe == PID_MAX || Used(tasks, c.safe)) && c.last < c.safe
  }

  /** Whether a call may skip the scan. */
  predicate Cached(c: Cache) { c.last + 1 < PID_MAX && c.last + 1 < c.safe }

  /** A scan ends when it meets a free id or comes back to where it began; ids below 300
      are not visited twice. */
  ghost predicate Ends(tasks: seq<Ids>, begin: int) {
    begin >= RESERVED || exists x :: begin < x < PID_MAX && !Used(tasks, x)
  }

  /** What one call does, by its result: zero is failure. */
  ghost predicate Allocates(tasks: seq<Ids>, c: Cache, d: Cache, pid: int) {
    if Cached(c) then pid == c.last + 1 && d == c.(last := pid)
    else if pid != 0 then
      && pid == d.last && InRange(d) && !Used(tasks, pid)
      && (c.last < pid || RESERVED <= pid < c.last) && AllUsed(tasks, c.last, pid) && Least(tasks, d)
    else
      && d.last == c.last < d.safe <= PID_MAX && c.last >= RESERVED && AllUsed(tasks, c.last, c.last)
      && (c.last == RESERVED ==> d.safe == PID_MAX)
  }

  class Allocator {
    var lastPid: int
    var nextSafe: int

    constructor ()
      ensures Now() == Cache(0, PID_MAX)
    {
      lastPid, nextSafe := 0, PID_MAX;
    }

    ghost function Now(): Cache
      reads this
    {
      Cache(lastPid, nextSafe)
    }

    /** get_pid; `tasks` is the task list, `current` the caller's own pid. */
    method GetPid(tasks: seq<Ids>, clonePid: bool, current: int) returns (pid: int)
      requires InRange(Now()) && (clonePid || Cached(Now()) || Ends(tasks, lastPid))
      modifies this
      ensures clonePid ==> pid == current && Now() == old(Now())
      ensures !clonePid ==> Allocates(tasks, old(Now()), Now(), pid)
    {
      hide Has, UsedBefore, AllUsed, Clear;
      if clonePid {
        return current;
      }
      var begin := lastPid;
      lastPid := lastPid + 1;
      if lastPid >= PID_MAX {
        lastPid := RESERVED;
      } else if lastPid < nextSafe {
        return lastPid;
      }
      nextSafe := PID_MAX;
      ScanStart(tasks, begin);
      var i := 0;
      ghost var goal :| begin < RESERVED ==> begin < goal < PID_MAX && !Used(tasks, goal);
      while i < |tasks|
        invariant 0 <= i <= |tasks| && 0 < lastPid < nextSafe <= PID_MAX && lastPid != begin
        invariant begin < lastPid || RESERVED <= lastPid
        invariant begin < RESERVED ==> begin < lastPid <= goal
        invariant AllUsed(tasks, begin, lastPid)
        invariant Clear(tasks, i, lastPid, nextSafe)
        invariant nextSafe == PID_MAX || Used(tasks, nextSafe)
        decreases Distance(lastPid, begin), |tasks| - i
      {
        var p := tasks[i];
        if Has(p, lastPid) {
          UsedNext(tasks, i, lastPid);
          HitStep(tasks, i, begin, lastPid);
          lastPid := lastPid + 1;
          if lastPid >= nextSafe {
            if lastPid >= PID_MAX {
              lastPid := RESERVED;
            }
            nextSafe := PID_MAX;
          }
          if lastPid == begin {
            return 0;
          }
          i := 0;
        } else {
          ScanStep(tasks, i, lastPid, nextSafe);
          nextSafe := Lower(nextSafe, lastPid, p);
          i := i + 1;
        }
      }
      ScanEnd(tasks, lastPid, nextSafe);
      pid := lastPid;
    }
  }

  /** Steps from an id to the end of the scan. */
  function Distance(x: int, begin: int): int {
    if begin < RESERVED then PID_MAX - x
    else if x <= begin then begin - x
    else PID_MAX - x + begin - RESERVED
  }

  /** The four comparisons that keep next_safe at the least id above last_pid. */
  function Lower(safe: int, last: int, p: Ids): (r: int)
    ensures r <= safe && (r == safe || Has(p, r)) && (last < safe ==> last < r)
    ensures forall x :: last < x < r ==> !Has(p, x)
  {
    var a := if p.pid > last && safe > p.pid then p.pid else safe;
    var b := if p.pgrp > last && a > p.pgrp then p.pgrp else a;
    var c := if p.tgid > last && b > p.tgid then p.tgid else b;
    if p.session > last && c > p.session then p.session else c
  }

  /** None of the first k tasks uses an id from last up to safe. */
  ghost predicate Clear(tasks: seq<Ids>, k: nat, last: int, safe: int)
    requires k <= |tasks|
  {
    forall x :: last <= x < safe ==> !UsedBefore(tasks, k, x)
  }

  lemma UsedNext(tasks: seq<Ids>, k: nat, x: int)
    requires k < |tasks|
    ensures UsedBefore(tasks, k + 1, x) <==> UsedBefore(tasks, k, x) || Has(tasks[k], x)
  {
    assert UsedBefore(tasks, k + 1, x) && !Has(tasks[k], x) ==> UsedBefore(tasks, k, x);
  }

  lemma ScanStart(tasks: seq<Ids>, begin: int)
    ensures 0 <= begin < PID_MAX ==> AllUsed(tasks, begin, Succ(begin))
    ensures forall last, safe :: Clear(tasks, 0, last, safe)
  {
  }

  lemma ScanEnd(tasks: seq<Ids>, last: int, safe: int)
    requires Clear(tasks, |tasks|, last, safe) && last < safe
    ensures Gap(tasks, Cache(last, safe)) && !Used(tasks, last)
  {
  }

  /** An id in use is passed over. */
  lemma HitStep(tasks: seq<Ids>, k: nat, begin: int, last: int)
    requires k < |tasks| && Has(tasks[k], last) && AllUsed(tasks, begin, last) && last != begin && 0 < last < PID_MAX
    requires begin < last || RESERVED <= last
    ensures Used(tasks, last)
    ensures last + 1 < PID_MAX ==> AllUsed(tasks, begin, last + 1)
    ensures last + 1 == PID_MAX && begin >= RESERVED ==> AllUsed(tasks, begin, RESERVED)
  {
    assert UsedBefore(tasks, |tasks|, last);
    assert forall x :: Passed(begin, x, last + 1) ==> Passed(begin, x, last) || x == last || begin == last + 1;
  }

  lemma ScanStep(tasks: seq<Ids>, k: nat, last: int, safe: int)
    requires k < |tasks| && Clear(tasks, k, last, safe) && !Has(tasks[k], last)
    ensures Clear(tasks, k + 1, last, Lower(safe, last, tasks[k]))
    ensures Lower(safe, last, tasks[k]) == safe || Used(tasks, Lower(safe, last, tasks[k]))
  {
    hide Lower;
    var next := k + 1;
    forall x | last <= x < Lower(safe, last, tasks[k]) ensures !UsedBefore(tasks, next, x) {
      UsedNext(tasks, k, x);
    }
  }

  // ---- runs ---------------------------------------------------------------------------------

  /** The task list and the allocator. */
  datatype System = System(tasks: seq<Ids>, cache: Cache)

  datatype Event =
    | Fork(parent: Ids, thread: bool, pid: int, after: Cache)    // get_pid returned pid, 0 for failure
    | Exit(i: nat)
    | Regroup(i: nat, pgrp: int, session: int)                   // setpgid and setsid

  /** An id of a linked task, or of the boot task, whose ids are 0. */
  ghost predicate Live(tasks: seq<Ids>, x: int) { x == 0 || Used(tasks, x) }

  ghost predicate Can(s: System, e: Event) {
    match e
    case Fork(parent, _, pid, after) =>
      && Live(s.tasks, parent.pgrp) && Live(s.tasks, parent.tgid) && Live(s.tasks, parent.session)
      && Allocates(s.tasks, s.cache, after, pid)
    case Exit(i) => i < |s.tasks|
    case Regroup(i, pgrp, session) => i < |s.tasks| && Live(s.tasks, pgrp) && Live(s.tasks, session)
  }

  function Child(parent: Ids, thread: bool, pid: int): Ids {
    Ids(pid, parent.pgrp, if thread then parent.tgid else pid, parent.session)
  }

  ghost function Step(s: System, e: Event): System
    requires Can(s, e)
  {
    match e
    case Fork(parent, thread, pid, after) =>
      System(if pid == 0 then s.tasks else s.tasks + [Child(parent, thread, pid)], after)
    case Exit(i) => s.(tasks := s.tasks[..i] + s.tasks[i + 1..])
    case Regroup(i, pgrp, session) => s.(tasks := s.tasks[i := s.tasks[i].(pgrp := pgrp, session := session)])
  }

  predicate Fails(e: Event) { e.Fork? && e.pid == 0 }

  ghost predicate Sound(s: System) {
    && InRange(s.cache) && Gap(s.tasks, s.cache)
    && forall i, j :: 0 <= i < j < |s.tasks| ==> s.tasks[i].pid != s.tasks[j].pid
  }

  /** The pid of a successful call is none of the four ids of any task, whether or not the
      call scanned the tasks. */
  lemma FreshPid(tasks: seq<Ids>, c: Cache, d: Cache, pid: int)
    requires InRange(c) && Gap(tasks, c) && Allocates(tasks, c, d, pid) && pid != 0
    ensures !Used(tasks, pid) && d.last == pid && InRange(d) && Gap(tasks, d) && 0 < pid < PID_MAX
  {
    assert Cached(c) ==> c.last < pid < c.safe;
  }

  /** No step brings in an id that was not live, but the new pid. */
  lemma StepIds(s: System, e: Event, x: int)
    requires Can(s, e) && Used(Step(s, e).tasks, x)
    ensures Live(s.tasks, x) || (e.Fork? && !Fails(e) && x == e.pid)
  {
    var t := Step(s, e);
    var j :| 0 <= j < |t.tasks| && Has(t.tasks[j], x);
    match e
    case Fork(_, _, _, _) => if j < |s.tasks| { assert Has(s.tasks[j], x); }
    case Exit(i) => assert Has(s.tasks[if j < i then j else j + 1], x);
    case Regroup(i, pgrp, session) => if x != pgrp && x != session { assert Has(s.tasks[j], x); }
  }

  lemma StepSound(s: System, e: Event)
    requires Sound(s) && Can(s, e) && !Fails(e)
    ensures Sound(Step(s, e))
  {
    hide Allocates, Step, Has, UsedBefore, Fails;
    var t := Step(s, e);
    StepCache(s, e);
    forall x | t.cache.last < x < t.cache.safe ensures !Used(t.tasks, x) {
      if Used(t.tasks, x) {
        StepIds(s, e, x);
        assert false;
      }
    }
    StepPids(s, e);
  }

  lemma StepCache(s: System, e: Event)
    requires Sound(s) && Can(s, e) && !Fails(e)
    ensures InRange(Step(s, e).cache) && Gap(s.tasks, Step(s, e).cache)
    ensures e.Fork? ==> Step(s, e).cache.last == e.pid
  {
    if e.Fork? { FreshPid(s.tasks, s.cache, e.after, e.pid); }
  }

  lemma StepPids(s: System, e: Event)
    requires Sound(s) && Can(s, e) && !Fails(e)
    ensures var ts := Step(s, e).tasks; forall i, j :: 0 <= i < j < |ts| ==> ts[i].pid != ts[j].pid
  {
    if e.Fork? {
      FreshPid(s.tasks, s.cache, e.after, e.pid);
      forall i | 0 <= i < |s.tasks| ensures s.tasks[i].pid != e.pid { assert !Has(s.tasks[i], e.pid); }
    }
  }

  ghost predicate Runs(s: System, es: seq<Event>)
    decreases |es|
  {
    es == [] || (Can(s, es[0]) && Runs(Step(s, es[0]), es[1..]))
  }

  ghost function Final(s: System, es: seq<Event>): System
    requires Runs(s, es)
    decreases |es|
  {
    if es == [] then s else Final(Step(s, es[0]), es[1..])
  }

  /** In every run of forks, exits and group changes without a failing call, no id in use
      lies strictly between last_pid and next_safe, live tasks have different pids, and the
      next successful call returns a pid that is not in use. */
  lemma {:induction false} PidsStayUnique(s: System, es: seq<Event>)
    requires Sound(s) && Runs(s, es) && forall e :: e in es ==> !Fails(e)
    ensures Sound(Final(s, es))
    ensures forall d: Cache, pid :: pid != 0 && Allocates(Final(s, es).tasks, Final(s, es).cache, d, pid) ==>
              !Used(Final(s, es).tasks, pid)
    decreases |es|
  {
    if es == [] {
      forall d: Cache, pid | pid != 0 && Allocates(s.tasks, s.cache, d, pid) ensures !Used(s.tasks, pid) {
        FreshPid(s.tasks, s.cache, d, pid);
      }
    } else {
      StepSound(s, es[0]);
      PidsStayUnique(Step(s, es[0]), es[1..]);
    }
  }

  // ---- every call of every run ends -----------------------------------------------------------

  /** Until last_pid has passed 300 for the first time no id beyond it is in use. */
  ghost predicate Low(s: System) {
    InRange(s.cache) && (s.cache.last < RESERVED ==> forall x :: Used(s.tasks, x) ==> x <= s.cache.last)
  }

  /** In such a state a call ends: its scan starts at 300 or beyond, or the very next id is
      free. */
  lemma LowEnds(s: System)
    requires Low(s)
    ensures Ends(s.tasks, s.cache.last)
  {
    if s.cache.last < RESERVED { assert !Used(s.tasks, s.cache.last + 1); }
  }

  /** Failing calls included: last_pid grows until it reaches 300 and never drops below
      again, and every new id is the new last_pid. */
  lemma StepLow(s: System, e: Event)
    requires Low(s) && Can(s, e)
    ensures Low(Step(s, e))
  {
    hide Used;
    var t := Step(s, e);
    if t.cache.last < RESERVED {
      forall x | Used(t.tasks, x) ensures x <= t.cache.last { StepIds(s, e, x); }
    }
  }

  lemma {:induction false} StaysLow(s: System, es: seq<Event>)
    requires Low(s) && Runs(s, es)
    ensures Low(Final(s, es))
    decreases |es|
  {
    if es != [] {
      StepLow(s, es[0]);
      StaysLow(Step(s, es[0]), es[1..]);
    }
  }

  const BOOT := System([], Cache(0, PID_MAX))

  /** In every run from boot, with and without failing calls and for any number of tasks,
      the state meets what GetPid requires: every call ends. */
  lemma EveryCallEnds(es: seq<Event>)
    requires Runs(BOOT, es)
    ensures InRange(Final(BOOT, es).cache) && Ends(Final(BOOT, es).tasks, Final(BOOT, es).cache.last)
  {
    hide Runs, Final;
    assert Low(BOOT);
    StaysLow(BOOT, es);
    LowEnds(Final(BOOT, es));
  }

  // ---- failure ------------------------------------------------------------------------------

  /** After a failing call the cache is sound only if it is empty; otherwise the next call
      hands out a pid that is in use. */
  lemma StaleAfterFailure(tasks: seq<Ids>, c: Cache, d: Cache)
    requires InRange(c) && Allocates(tasks, c, d, 0)
    ensures Gap(tasks, d) <==> d.safe == d.last + 1
    ensures d.safe != d.last + 1 ==>
              forall e: Cache, pid :: Allocates(tasks, d, e, pid) ==> pid == d.last + 1 && Used(tasks, pid)
  {
    assert d.safe != d.last + 1 ==> Passed(c.last, d.last + 1, c.last);
  }

  const FULL := seq(8117, i => Ids(300 + 4 * i, 301 + 4 * i, 302 + 4 * i, 303 + 4 * i))

  /** It does happen: 8117 tasks hold every id from 300 on, and last_pid is 300. */
  lemma StaleExample(d: Cache, pid: int, e: Cache, next: int)
    requires Allocates(FULL, Cache(300, 301), d, pid) && Allocates(FULL, d, e, next)
    ensures pid == 0 && d == Cache(300, PID_MAX) && next == 301 && Used(FULL, next)
  {
    forall x | RESERVED <= x < PID_MAX ensures Used(FULL, x) {
      assert Has(FULL[(x - 300) / 4], x);
    }
  }

  // ---- enough room ----------------------------------------------------------------------------

  function IdsOf(tasks: seq<Ids>): set<int> {
    if tasks == [] then {}
    else {tasks[0].pid, tasks[0].pgrp, tasks[0].tgid, tasks[0].session} + IdsOf(tasks[1..])
  }

  lemma {:induction false} IdsOfUsed(tasks: seq<Ids>, x: int)
    ensures x in IdsOf(tasks) <==> Used(tasks, x)
    ensures |IdsOf(tasks)| <= 4 * |tasks|
  {
    if tasks != [] {
      IdsOfUsed(tasks[1..], x);
      if Used(tasks, x) {
        var i :| 0 <= i < |tasks| && Has(tasks[i], x);
        assert i > 0 ==> Has(tasks[1..][i - 1], x);
      }
      if Used(tasks[1..], x) {
        var i :| 0 <= i < |tasks| - 1 && Has(tasks[1..][i], x);
        assert Has(tasks[i + 1], x);
      }
    }
  }

  lemma {:induction false} SpanSize(lo: int, hi: int, s: set<int>)
    requires lo <= hi && forall x :: lo <= x < hi ==> x in s
    ensures |s| >= hi - lo
    decreases hi - lo
  {
    if lo < hi {
      SpanSize(lo, hi - 1, s - {hi - 1});
    }
  }

  /** 8116 tasks hold too few ids to fill the range. */
  lemma NotFull(tasks: seq<Ids>, begin: int) returns (x: int)
    requires |tasks| <= 8116
    ensures RESERVED <= x < PID_MAX && x != begin && !Used(tasks, x)
  {
    var ids := IdsOf(tasks);
    forall x ensures x in ids <==> Used(tasks, x) { IdsOfUsed(tasks, x); }
    IdsOfUsed(tasks, 0);
    if forall x :: RESERVED <= x < PID_MAX && x != begin ==> Used(tasks, x) {
      SpanSize(RESERVED, PID_MAX, ids + {begin});
    }
    x :| RESERVED <= x < PID_MAX && x != begin && !Used(tasks, x);
  }

  /** With at most 8116 linked tasks a call ends and does not fail. */
  lemma RoomForAll(tasks: seq<Ids>, c: Cache)
    requires |tasks| <= 8116 && InRange(c)
    ensures Ends(tasks, c.last)
    ensures forall d: Cache, pid :: Allocates(tasks, c, d, pid) ==> pid != 0
  {
    var x := NotFull(tasks, c.last);
    assert c.last >= RESERVED ==> Passed(c.last, x, c.last);
  }

  /** The n-th id a scan from `begin` looks at. */
  function Visited(begin: int, n: nat): int {
    if n == 0 then Succ(begin) else Succ(Visited(begin, n - 1))
  }

  /** Why GetPid needs Ends in states no run reaches: there the scan would meet no free id
      and never come back to an id below 300. */
  lemma {:induction false} ScanForever(tasks: seq<Ids>, begin: int, n: nat)
    requires 0 <= begin < PID_MAX && !Ends(tasks, begin)
    ensures Visited(begin, n) > begin && Visited(begin, n) < PID_MAX && Used(tasks, Visited(begin, n))
  {
    if n > 0 {
      ScanForever(tasks, begin, n - 1);
    }
  }
}
