/** The log of context switches: a ring of 150 records of which one slot is scratch, and a
    counter that turns recording off some switches after a task is created or ends. */
module SwitchRing {

  /** SWITCH_INFO_ARRAY_SIZE */
  const SIZE := 150

  /** Reasons, in the order of the C enumeration. */
  const TASK_CREATED := 0
  const TASK_ENDED := 1

  const EFAULT := 14

  const MIN_INT := -0x8000_0000

  datatype Info = Info(previousPid: int, nextPid: int, previousPolicy: int, nextPolicy: int, time: int, reason: int)

  const BLANK := Info(-1, -1, -1, -1, -1, -1)

  /** Decrement of a C int that wraps around. */
  function Dec(i: int): int { if i == MIN_INT then -MIN_INT - 1 else i - 1 }

  /** The counter, and what has happened so far: records committed, tasks created or ended,
      switches recorded. */
  datatype Meter = Meter(remaining: int, commits: nat, events: nat, records: nat)

  function Noted(m: Meter, reason: int): Meter {
    if reason == TASK_CREATED || reason == TASK_ENDED then m.(remaining := 30, events := m.events + 1) else m
  }

  function Recorded(m: Meter): Meter {
    var left := Dec(m.remaining);
    Meter(left, if left > 0 then m.commits + 1 else m.commits, m.events, m.records + 1)
  }

  datatype Op = Note(reason: int) | Record

  function Run(m: Meter, ops: seq<Op>): Meter
    decreases |ops|
  {
    if ops == [] then m
    else
      var u := Run(m, ops[..|ops| - 1]);
      match ops[|ops| - 1]
      case Note(reason) => Noted(u, reason)
      case Record => Recorded(u)
  }

  const START := Meter(0, 0, 0, 0)

  /** At most 29 records are committed for each task created or ended, in every run of up to
      2^31 switches. */
  lemma {:induction false} CommitsBounded(ops: seq<Op>)
    ensures Run(START, ops).records <= -MIN_INT ==>
              && Run(START, ops).commits <= 29 * Run(START, ops).events
              && 0 - Run(START, ops).records <= Run(START, ops).remaining <= 30
              && Run(START, ops).commits + Run(START, ops).remaining - 1 <= 29 * Run(START, ops).events
    decreases |ops|
  {
    if ops != [] {
      CommitsBounded(ops[..|ops| - 1]);
    }
  }

  /** The bound on the run is exact: one switch later the counter wraps around and a record
      is committed without any task having been created or ended. */
  lemma {:induction false} CounterWraps(n: nat)
    ensures n <= -MIN_INT ==> Run(START, seq(n, _ => Record)) == Meter(0 - n, 0, 0, n)
    ensures n == -MIN_INT + 1 ==> Run(START, seq(n, _ => Record)).commits == 1
  {
    if n > 0 {
      var ops := seq(n, _ => Record);
      CounterWraps(n - 1);
      assert ops[..|ops| - 1] == seq(n - 1, _ => Record);
    }
  }

  /** After an event the next 29 switches are committed, and no more. */
  lemma {:induction false} BurstOf29(m: Meter, reason: int, n: nat)
    requires (reason == TASK_CREATED || reason == TASK_ENDED) && n <= -MIN_INT
    ensures var u := Run(Noted(m, reason), seq(n, _ => Record));
            u.commits == m.commits + (if n < 29 then n else 29) && u.remaining == 30 - n
  {
    if n > 0 {
      var ops := seq(n, _ => Record);
      BurstOf29(m, reason, n - 1);
      assert ops[..|ops| - 1] == seq(n - 1, _ => Record);
    }
  }

  /** Position j of a window that starts at slot `start`. */
  function Slot(start: nat, j: nat): (k: nat)
    requires start < SIZE && j <= SIZE
    ensures k < SIZE
  {
    if start + j < SIZE then start + j else start + j - SIZE
  }

  /** How many records the window from start to end holds. */
  function Held(start: nat, end: nat): (n: nat)
    requires start < SIZE && end < SIZE
    ensures n < SIZE && Slot(start, n) == end
  {
    if end >= start then end - start else end + SIZE - start
  }

  function Min(a: int, b: int): int { if a < b then a else b }

  /** The window from start to end holds the last min(149, committed) records in order; the
      slot at `end` is not part of it. */
  ghost predicate Window(slots: seq<Info>, start: nat, end: nat, log: seq<Info>) {
    && |slots| == SIZE && start < SIZE && end < SIZE
    && Held(start, end) == Min(SIZE - 1, |log|) && (start != 0 ==> Held(start, end) == SIZE - 1)
    && forall j :: 0 <= j < Held(start, end) ==> slots[Slot(start, j)] == log[|log| - Held(start, end) + j]
  }

  lemma InWindow(slots: seq<Info>, start: nat, end: nat, log: seq<Info>)
    requires Window(slots, start, end, log)
    ensures |slots| == SIZE && start < SIZE && end < SIZE
  {
  }

  /** The scratch slot may be written at any time. */
  lemma ScratchIsFree(slots: seq<Info>, start: nat, end: nat, log: seq<Info>, x: Info)
    requires Window(slots, start, end, log)
    ensures Window(slots[end := x], start, end, log)
  {
  }

  /** Committing the scratch slot appends to the log; a full ring drops its oldest record. */
  lemma CommitScratch(slots: seq<Info>, start: nat, end: nat, log: seq<Info>)
    requires Window(slots, start, end, log)
    ensures var e := (end + 1) % SIZE;
            Window(slots, if e == start then (start + 1) % SIZE else start, e, log + [slots[end]])
  {
    var e := (end + 1) % SIZE;
    var b := if e == start then (start + 1) % SIZE else start;
    var l := log + [slots[end]];
    forall j | 0 <= j < Held(b, e) ensures slots[Slot(b, j)] == l[|l| - Held(b, e) + j] {
      var i := if e == start then j + 1 else j;
      assert Slot(b, j) == Slot(start, i);
      assert i < Held(start, end) ==> slots[Slot(start, i)] == log[|log| - Held(start, end) + i];
    }
  }

  /** What a reader of the whole array finds: the records in order if the window starts with
      the array, and otherwise the newest ones first, then the scratch slot, and then the
      others. */
  lemma ReadOrder(slots: seq<Info>, start: nat, end: nat, log: seq<Info>)
    requires Window(slots, start, end, log)
    ensures |slots| == SIZE && start < SIZE && end < SIZE && Held(start, end) == Min(SIZE - 1, |log|)
    ensures start == 0 ==> end == Min(SIZE - 1, |log|) && slots[..end] == log[|log| - end..]
    ensures start != 0 ==>
              end == start - 1 && SIZE - 1 <= |log| && slots[start..] + slots[..end] == log[|log| - (SIZE - 1)..]
  {
    if start != 0 {
      assert end == start - 1;
      var all := slots[start..] + slots[..end];
      forall j | 0 <= j < SIZE - 1 ensures all[j] == log[|log| - (SIZE - 1) + j] {
        assert Slot(start, j) == if j < SIZE - start then start + j else j - (SIZE - start);
      }
    } else {
      forall j | 0 <= j < end ensures slots[j] == log[|log| - end + j] { assert Slot(start, j) == j; }
    }
  }

  class Ring {
    const arr: array<Info>
    var start: nat
    var end: nat
    var remaining: int
    /** All records ever committed, oldest first, and the meter of the run. */
    ghost var log: seq<Info>
    ghost var meter: Meter

    ghost predicate Valid()
      reads this, arr
    {
      && arr.Length == SIZE && Window(arr[..], start, end, log)
      && meter.remaining == remaining && meter.commits == |log|
    }

    /** The fields set by sched_init. */
    constructor ()
      ensures Valid() && fresh(arr) && log == [] && meter == START
    {
      arr := new Info[SIZE](_ => BLANK);
      start, end, remaining := 0, 0, 0;
      log, meter := [], START;
    }

    /** record_switch */
    method RecordSwitch(reason: int)
      requires Valid()
      modifies this, arr
      ensures Valid() && log == old(log) && meter == Noted(old(meter), reason)
      ensures arr[end] == old(arr[end]).(reason := reason) && end == old(end)
    {
      ScratchIsFree(arr[..], start, end, log, arr[end].(reason := reason));
      arr[end] := arr[end].(reason := reason);
      if reason == TASK_CREATED || reason == TASK_ENDED {
        remaining := 30;
      }
      meter := Noted(meter, reason);
    }

    /** create_record */
    method CreateRecord(previousPid: int, nextPid: int, previousPolicy: int, nextPolicy: int, now: int)
      requires Valid()
      modifies this, arr
      ensures Valid() && meter == Recorded(old(meter))
      ensures log == if meter.remaining > 0
                     then old(log) + [Info(previousPid, nextPid, previousPolicy, nextPolicy, now, old(arr[end]).reason)]
                     else old(log)
    {
      hide Window;
      InWindow(arr[..], start, end, log);
      var next := end;
      ScratchIsFree(arr[..], start, end, log,
                    Info(previousPid, nextPid, previousPolicy, nextPolicy, now, arr[next].reason));
      arr[next] := arr[next].(previousPid := previousPid, nextPid := nextPid, previousPolicy := previousPolicy,
                              nextPolicy := nextPolicy, time := now);
      remaining := Dec(remaining);
      if remaining > 0 {
        CommitScratch(arr[..], start, end, log);
        end := (next + 1) % SIZE;
        if end == start {
          start := (start + 1) % SIZE;
        }
        log := log + [arr[next]];
      }
      meter := Recorded(meter);
    }

    /** copy_switch_info_to_user: the number it reports is right exactly when something has
        been committed; for an empty ring it reports 150. The records are copied as they lie
        in the array: in order only if the window starts there. */
    method Copy(usrIsNull: bool, faults: bool) returns (res: int, out: seq<Info>)
      requires Valid()
      ensures usrIsNull || faults ==> res == -EFAULT && out == []
      ensures !usrIsNull && !faults ==>
                && res == (if log == [] then SIZE else Min(SIZE - 1, |log|)) && |out| == SIZE
                && (start == 0 ==> out[..Min(SIZE - 1, |log|)] == log[|log| - Min(SIZE - 1, |log|)..])
                && (start != 0 ==> out[start..] + out[..start - 1] == log[|log| - (SIZE - 1)..])
    {
      hide Window;
      ReadOrder(arr[..], start, end, log);
      if usrIsNull {
        return -EFAULT, [];
      }
      var n := if end > start then end - start else SIZE - (start - end);
      res := if faults then -EFAULT else n;
      out := if faults then [] else arr[..];
    }
  }
}
