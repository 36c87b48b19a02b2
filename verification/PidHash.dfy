/** The pid hash: 1024 chains of tasks linked through the tasks themselves, with a back
    link to whatever points at a task. */
module PidHashes {
  import opened Lists

  const PIDHASH_SZ := 1024

  /** pid_hashfn on a C int. */
  function HashFn(pid: int): (k: nat)
    ensures k < PIDHASH_SZ
  {
    var x := (pid % 0x1_0000_0000) as bv32;
    Masked((x >> 8) ^ x)
  }

  function Masked(x: bv32): (k: nat)
    ensures k < PIDHASH_SZ
  {
    var y := x & 1023;
    assert y <= 1023;
    y as nat
  }

  /** pidhash_pprev: the pointer that points at the task, in the table or in a task. */
  datatype Link = NoLink | Bucket(k: nat) | NextOf(p: Task)

  /** The task_struct fields of the hash. */
  class Task {
    const pid: int
    var next: Task?
    var pprev: Link

    constructor (pid: int)
      ensures this.pid == pid && next == null && pprev == NoLink
    {
      this.pid, next, pprev := pid, null, NoLink;
    }
  }

  /** The pointers along chain k: each next leads to the following task, and each pprev is
      the link that points at its task. */
  ghost predicate Linked(c: seq<Task>, k: nat, head: Task?)
    reads c
  {
    && head == Follow(c, 0)
    && forall j :: 0 <= j < |c| ==> At(c, k, j)
  }

  ghost predicate At(c: seq<Task>, k: nat, j: nat)
    requires j < |c|
    reads c[j]
  {
    c[j].next == Follow(c, j + 1) && c[j].pprev == Before(c, k, j)
  }

  ghost function Follow(c: seq<Task>, j: nat): Task? { if j < |c| then c[j] else null }

  ghost function Before(c: seq<Task>, k: nat, j: nat): Link
    requires j <= |c|
  {
    if j == 0 then Bucket(k) else NextOf(c[j - 1])
  }

  /** Chain k holds tasks of its slot only, each once. */
  ghost predicate InSlot(c: seq<Task>, k: nat) {
    Distinct(c) && forall j :: 0 <= j < |c| ==> HashFn(c[j].pid) == k
  }

  lemma SlotApart(c: seq<Task>, k: nat, d: seq<Task>, m: nat)
    requires InSlot(c, k) && InSlot(d, m) && k != m
    ensures forall j :: 0 <= j < |d| ==> d[j] !in c
  {
  }

  lemma SlotDistinct(c: seq<Task>, k: nat)
    requires InSlot(c, k)
    ensures forall i, j :: 0 <= i < j < |c| ==> c[i] != c[j]
  {
    forall i, j | 0 <= i < j < |c| ensures c[i] != c[j] { DistinctIndices(c, i, j); }
  }

  /** Putting a task in front of a chain. */
  lemma SlotPush(c: seq<Task>, k: nat, p: Task)
    requires InSlot(c, k) && p !in c && HashFn(p.pid) == k
    ensures InSlot([p] + c, k)
  {
    assert ([p] + c)[1..] == c;
  }

  /** Taking the i-th task out of a chain. */
  lemma SlotCut(c: seq<Task>, k: nat, i: nat)
    requires InSlot(c, k) && i < |c|
    ensures var d := c[..i] + c[i + 1..];
            && d == Remove(c, c[i]) && InSlot(d, k) && (forall q :: q in d <==> q in c && q != c[i])
            && forall j :: 0 <= j < |d| ==> d[j] == c[if j < i then j else j + 1]
  {
    hide Remove, HashFn;
    RemoveSplits(c, i);
    RemoveMembers(c, c[i]);
  }

  /** Links of a chain in terms of the chain without its i-th task. */
  lemma CutLinks(c: seq<Task>, k: nat, i: nat, j: nat)
    requires i < |c| && j < |c| - 1
    ensures var d, m := c[..i] + c[i + 1..], if j < i then j else j + 1;
            && Follow(d, j + 1) == (if m + 1 == i then Follow(c, i + 1) else Follow(c, m + 1))
            && Before(d, k, j) == if m == i + 1 then Before(c, k, i) else Before(c, k, m)
  {
  }

  class PidHash {
    const table: array<Task?>
    /** The chains, slot by slot, and the tasks that are hashed. */
    ghost var chains: seq<seq<Task>>
    ghost var members: set<Task>

    ghost predicate ChainOk(k: nat)
      requires table.Length == |chains| && k < |chains|
      reads this, table, members
    {
      && InSlot(chains[k], k) && (forall j :: 0 <= j < |chains[k]| ==> chains[k][j] in members)
      && Linked(chains[k], k, table[k])
    }

    ghost predicate Valid()
      reads this, table, members
    {
      && table.Length == |chains| == PIDHASH_SZ
      && (forall k :: 0 <= k < PIDHASH_SZ ==> ChainOk(k))
      && forall p :: p in members ==> p in chains[HashFn(p.pid)]
    }

    constructor ()
      ensures Valid() && members == {} && fresh(table)
    {
      table := new Task?[PIDHASH_SZ](_ => null);
      chains := seq(PIDHASH_SZ, _ => []);
      members := {};
    }

    /** The pointer surgery of hash_pid in front of chain c. */
    method Link(p: Task, k: nat, ghost c: seq<Task>)
      requires k < PIDHASH_SZ == table.Length && p !in c && Linked(c, k, table[k])
      requires forall j, m :: 0 <= j < m < |c| ==> c[j] != c[m]
      modifies table, p, c
      ensures Linked([p] + c, k, table[k])
      ensures forall m :: 0 <= m < PIDHASH_SZ && m != k ==> table[m] == old(table[m])
    {
      p.next := table[k];
      if p.next != null {
        assert p.next == c[0];
        p.next.pprev := NextOf(p);
      }
      table[k] := p;
      p.pprev := Bucket(k);
      ghost var d := [p] + c;
      forall j | 0 <= j < |d| ensures At(d, k, j) {
        if j > 0 { assert old(At(c, k, j - 1)) && d[j] == c[j - 1]; }
      }
    }

    /** hash_pid */
    method Hash(p: Task)
      requires Valid() && p !in members
      modifies this, table, p, members
      ensures Valid() && members == old(members) + {p}
      ensures chains == old(chains)[HashFn(p.pid) := [p] + old(chains)[HashFn(p.pid)]]
    {
      hide HashFn, InSlot, Linked;
      var k := HashFn(p.pid);
      ghost var c := chains[k];
      assert ChainOk(k);
      SlotDistinct(c, k);
      SlotPush(c, k, p);
      Link(p, k, c);
      chains := chains[k := [p] + c];
      members := members + {p};
      forall m | 0 <= m < PIDHASH_SZ ensures ChainOk(m) {
        assert old(ChainOk(m));
        if m != k {
          SlotApart(c, k, chains[m], m);
          assert Linked(chains[m], m, table[m]);
        }
      }
    }

    /** The pointer surgery of unhash_pid on p, which is the i-th task of chain c. */
    method Unlink(p: Task, ghost c: seq<Task>, ghost k: nat, ghost i: nat)
      requires k < PIDHASH_SZ == table.Length && i < |c| && c[i] == p && Linked(c, k, table[k])
      requires forall j, m :: 0 <= j < m < |c| ==> c[j] != c[m]
      modifies table, c
      ensures Linked(c[..i] + c[i + 1..], k, table[k])
      ensures forall m :: 0 <= m < PIDHASH_SZ && m != k ==> table[m] == old(table[m])
    {
      assert At(c, k, i);
      if i + 1 < |c| { assert At(c, k, i + 1); }
      if p.next != null {
        p.next.pprev := p.pprev;
      }
      match p.pprev {
        case Bucket(b) => table[b] := p.next;
        case NextOf(q) => q.next := p.next;
        case NoLink => assert false;
      }
      ghost var d := c[..i] + c[i + 1..];
      forall j | 0 <= j < |d| ensures At(d, k, j) {
        ghost var m := if j < i then j else j + 1;
        assert old(At(c, k, m)) && d[j] == c[m];
        CutLinks(c, k, i, j);
      }
    }

    /** unhash_pid */
    method Unhash(p: Task)
      requires Valid() && p in members
      modifies this, table, members
      ensures Valid() && members == old(members) - {p}
      ensures chains == old(chains)[HashFn(p.pid) := Remove(old(chains)[HashFn(p.pid)], p)]
    {
      hide HashFn, InSlot, Linked, Remove;
      ghost var k := HashFn(p.pid);
      assert ChainOk(k);
      ghost var c := chains[k];
      ghost var i :| 0 <= i < |c| && c[i] == p;
      SlotCut(c, k, i);
      SlotDistinct(c, k);
      Unlink(p, c, k, i);
      chains := chains[k := c[..i] + c[i + 1..]];
      members := members - {p};
      forall m | 0 <= m < PIDHASH_SZ ensures ChainOk(m) {
        assert old(ChainOk(m));
        if m != k {
          SlotApart(c, k, chains[m], m);
          assert Linked(chains[m], m, table[m]);
        }
      }
    }

    /** find_task_by_pid */
    method Find(pid: int) returns (p: Task?)
      requires Valid()
      ensures p != null ==> p in members && p.pid == pid
      ensures p == null ==> forall q :: q in members ==> q.pid != pid
      ensures (forall q, r :: q in members && r in members && q.pid == r.pid ==> q == r) ==>
                forall q :: q in members ==> (q.pid == pid <==> q == p)
    {
      hide HashFn, InSlot;
      var k := HashFn(pid);
      p := table[k];
      ghost var c, i := chains[k], 0;
      assert ChainOk(k);
      while p != null && p.pid != pid
        invariant 0 <= i <= |c| && p == Follow(c, i)
        invariant forall j :: 0 <= j < i ==> c[j].pid != pid
        decreases |c| - i
      {
        assert At(c, k, i);
        p := p.next;
        i := i + 1;
      }
    }
  }
}
