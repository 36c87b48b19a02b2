/** The family links of tasks: each parent points at its youngest child, and the children
    of one parent form a list through their sibling pointers. The pointer fields of all
    tasks are one memory, indexed by address; a pointer is an address or None for NULL. */
module Families {
  import opened Lists
  import opened TaskModel

  /** The link fields of a task, and first_time_slice. */
  datatype Kin = Kin(
    opptr: Tid,              // original parent
    pptr: Tid,               // parent
    cptr: Option<Tid>,       // youngest child
    ysptr: Option<Tid>,      // younger sibling
    osptr: Option<Tid>,      // older sibling
    firstTimeSlice: bool)

  type Memory = map<Tid, Kin>

  function At(q: seq<Tid>, j: nat): Option<Tid> { if j < |q| then Some(q[j]) else None }

  function Younger(q: seq<Tid>, j: nat): Option<Tid>
    requires j <= |q|
  {
    if j == 0 then None else Some(q[j - 1])
  }

  /** The j-th child of t, given youngest first. */
  ghost predicate Child(mem: Memory, t: Tid, q: seq<Tid>, j: nat)
    requires j < |q|
  {
    q[j] in mem && mem[q[j]].pptr == t && mem[q[j]].osptr == At(q, j + 1) && mem[q[j]].ysptr == Younger(q, j)
  }

  /** The child chain of t is q: the two sibling pointers are inverse to each other along
      it, and it ends in NULL at both ends. */
  ghost predicate Chain(mem: Memory, t: Tid, q: seq<Tid>) {
    && Distinct(q) && t in mem && mem[t].cptr == At(q, 0)
    && forall j :: 0 <= j < |q| ==> Child(mem, t, q, j)
  }

  /** The same, but for the younger-sibling pointer of the youngest child. */
  ghost predicate LooseChain(mem: Memory, t: Tid, q: seq<Tid>) {
    && Distinct(q) && t in mem && mem[t].cptr == At(q, 0)
    && forall j :: 0 <= j < |q| ==> LooseChild(mem, t, q, j)
  }

  ghost predicate LooseChild(mem: Memory, t: Tid, q: seq<Tid>, j: nat)
    requires j < |q|
  {
    && q[j] in mem && mem[q[j]].pptr == t && mem[q[j]].osptr == At(q, j + 1)
    && (j > 0 ==> mem[q[j]].ysptr == Younger(q, j))
  }

  /** A chain depends on the head pointer of its parent and the links of its members only. */
  lemma ChainFrame(mem: Memory, now: Memory, t: Tid, q: seq<Tid>)
    requires Chain(mem, t, q) && t in now && now[t].cptr == mem[t].cptr
    requires forall x :: x in q ==> x in now && SameLinks(mem, now, x)
    ensures Chain(now, t, q)
  {
    forall j | 0 <= j < |q| ensures Child(now, t, q, j) { assert Child(mem, t, q, j); }
  }

  ghost predicate SameLinks(mem: Memory, now: Memory, x: Tid) {
    x in mem && x in now && now[x].pptr == mem[x].pptr && now[x].osptr == mem[x].osptr && now[x].ysptr == mem[x].ysptr
  }

  // ---- linking a child in front -------------------------------------------------------------

  /** The assignments that put p in front of the chain of t. */
  function Pushed(mem: Memory, p: Tid, t: Tid): Memory
    requires p in mem && t in mem && (mem[t].cptr.Some? ==> mem[t].cptr.value in mem)
  {
    var os := mem[t].cptr;
    var m := mem[p := mem[p].(pptr := t, ysptr := None, osptr := os)];
    var n := if os.Some? then m[os.value := m[os.value].(ysptr := Some(p))] else m;
    n[t := n[t].(cptr := Some(p))]
  }

  /** The last three assignments, once p_pptr and p_ysptr have been set. */
  function Fronted(mem: Memory, p: Tid): Memory
    requires p in mem && mem[p].pptr in mem && var t := mem[p].pptr; mem[t].cptr.Some? ==> mem[t].cptr.value in mem
  {
    var t := mem[p].pptr;
    var os := mem[t].cptr;
    var m := mem[p := mem[p].(osptr := os)];
    var n := if os.Some? then m[os.value := m[os.value].(ysptr := Some(p))] else m;
    n[t := n[t].(cptr := Some(p))]
  }

  lemma FrontedIsPushed(mem: Memory, p: Tid, t: Tid)
    requires p in mem && t in mem && (mem[t].cptr.Some? ==> mem[t].cptr.value in mem)
    ensures var m := mem[p := mem[p].(pptr := t, ysptr := None)];
            m[t].cptr == mem[t].cptr && Fronted(m, p) == Pushed(mem, p, t)
  {
  }

  lemma PushedChain(mem: Memory, p: Tid, t: Tid, q: seq<Tid>)
    requires Chain(mem, t, q) && p in mem && p !in q
    ensures mem[t].cptr.Some? ==> mem[t].cptr.value in mem
    ensures Chain(Pushed(mem, p, t), t, [p] + q)
  {
    if |q| > 0 { assert Child(mem, t, q, 0); }
    var now, r := Pushed(mem, p, t), [p] + q;
    assert r[1..] == q;
    forall j | 0 <= j < |r| ensures Child(now, t, r, j) {
      if j > 0 {
        assert Child(mem, t, q, j - 1) && r[j] == q[j - 1];
        if j > 1 { DistinctIndices(q, 0, j - 1); }
      }
    }
  }

  /** Other chains do not notice. */
  lemma PushedOther(mem: Memory, p: Tid, t: Tid, q: seq<Tid>, u: Tid, r: seq<Tid>)
    requires Chain(mem, t, q) && p in mem && Chain(mem, u, r) && u != t && p !in r
    ensures mem[t].cptr.Some? ==> mem[t].cptr.value in mem
    ensures Chain(Pushed(mem, p, t), u, r)
  {
    if |q| > 0 { assert Child(mem, t, q, 0); }
    forall x | x in r ensures SameLinks(mem, Pushed(mem, p, t), x) {
      var j :| 0 <= j < |r| && r[j] == x;
      assert Child(mem, u, r, j);
    }
    ChainFrame(mem, Pushed(mem, p, t), u, r);
  }

  // ---- the whole family -----------------------------------------------------------------------

  type Kids = map<Tid, seq<Tid>>

  /** Every task has its chain. */
  ghost predicate Chains(mem: Memory, kids: Kids) {
    kids.Keys == mem.Keys && forall t :: t in mem ==> Chain(mem, t, kids[t])
  }

  /** The linked tasks are exactly the members of the chains, each in that of its parent. */
  ghost predicate Members(mem: Memory, kids: Kids, list: seq<Tid>) {
    && Distinct(list)
    && (forall p :: p in list ==> Placed(mem, kids, p))
    && (forall t, p :: t in kids && p in kids[t] ==> p in list)
  }

  ghost predicate Placed(mem: Memory, kids: Kids, p: Tid) {
    p in mem && mem[p].pptr in kids && p in kids[mem[p].pptr] && mem[p].opptr in mem
  }

  ghost predicate Consistent(mem: Memory, kids: Kids, list: seq<Tid>) {
    Chains(mem, kids) && Members(mem, kids, list)
  }

  lemma MemberOf(mem: Memory, t: Tid, q: seq<Tid>, p: Tid)
    requires Chain(mem, t, q) && p in q
    ensures p in mem && mem[p].pptr == t
  {
    var j :| 0 <= j < |q| && q[j] == p;
    assert Child(mem, t, q, j);
  }

  lemma PushedParents(mem: Memory, p: Tid, t: Tid, q: seq<Tid>)
    requires t in mem && mem[t].cptr == At(q, 0) && (q != [] ==> q[0] in mem && q[0] != p) && p in mem
    ensures mem[t].cptr.Some? ==> mem[t].cptr.value in mem
    ensures Pushed(mem, p, t).Keys == mem.Keys && Pushed(mem, p, t)[p].pptr == t
    ensures forall x :: x in mem ==> Pushed(mem, p, t)[x].opptr == mem[x].opptr
    ensures forall x :: x in mem && x != p ==> Pushed(mem, p, t)[x].pptr == mem[x].pptr
    ensures forall x :: x in mem && x != t ==> Pushed(mem, p, t)[x].cptr == mem[x].cptr
  {
  }

  lemma PushedConsistent(mem: Memory, kids: Kids, list: seq<Tid>, p: Tid, t: Tid)
    requires Consistent(mem, kids, list) && p in mem && t in mem && p !in list && mem[p].opptr in mem
    ensures (mem[t].cptr.Some? ==> mem[t].cptr.value in mem) && t in kids
    ensures Consistent(Pushed(mem, p, t), kids[t := [p] + kids[t]], list + [p])
    ensures Pushed(mem, p, t).Keys == mem.Keys
    ensures forall x :: x in mem ==> Pushed(mem, p, t)[x].opptr == mem[x].opptr
  {
    HeadKnown(mem, t, kids[t]);
    PushedParents(mem, p, t, kids[t]);
    PushedChains(mem, kids, p, t);
    PushedMembers(mem, kids, list, p, t);
  }

  lemma PushedChains(mem: Memory, kids: Kids, p: Tid, t: Tid)
    requires Chains(mem, kids) && p in mem && t in mem && forall u :: u in kids ==> p !in kids[u]
    ensures mem[t].cptr.Some? ==> mem[t].cptr.value in mem
    ensures Chains(Pushed(mem, p, t), kids[t := [p] + kids[t]])
  {
    hide Chain, Pushed, At;
    PushedChain(mem, p, t, kids[t]);
    HeadKnown(mem, t, kids[t]);
    PushedParents(mem, p, t, kids[t]);
    var now, kin := Pushed(mem, p, t), kids[t := [p] + kids[t]];
    forall u | u in now ensures Chain(now, u, kin[u]) {
      if u != t { PushedOther(mem, p, t, kids[t], u, kids[u]); }
    }
  }

  lemma PushedMembers(mem: Memory, kids: Kids, list: seq<Tid>, p: Tid, t: Tid)
    requires Consistent(mem, kids, list) && p in mem && t in mem && p !in list && mem[p].opptr in mem
    ensures mem[t].cptr.Some? ==> mem[t].cptr.value in mem
    ensures Members(Pushed(mem, p, t), kids[t := [p] + kids[t]], list + [p])
  {
    hide Chain, Pushed, At;
    HeadKnown(mem, t, kids[t]);
    PushedParents(mem, p, t, kids[t]);
    var now, kin, l := Pushed(mem, p, t), kids[t := [p] + kids[t]], list + [p];
    InsertMembers(list, |list|, p);
    assert Insert(list, |list|, p) == l;
    forall x | x in l ensures Placed(now, kin, x) {
      if x != p { assert Placed(mem, kids, x); }
    }
  }

  /** A task that nothing points at joins the memory without a child. */
  lemma EnteredConsistent(mem: Memory, kids: Kids, list: seq<Tid>, p: Tid, x: Kin)
    requires Consistent(mem, kids, list) && p !in mem && x.cptr.None?
    ensures p !in list && p !in kids && Consistent(mem[p := x], kids[p := []], list)
  {
    hide Chain;
    var now := mem[p := x];
    forall t | t in mem ensures Chain(now, t, kids[t]) {
      forall y | y in kids[t] ensures SameLinks(mem, now, y) { MemberOf(mem, t, kids[t], y); }
      ChainFrame(mem, now, t, kids[t]);
    }
    assert Chain(now, p, []) by { NoChildren(now, p); }
    forall y | y in list ensures Placed(now, kids[p := []], y) { assert Placed(mem, kids, y); }
  }

  lemma NoChildren(mem: Memory, t: Tid)
    requires t in mem && mem[t].cptr.None?
    ensures Chain(mem, t, [])
  {
  }

  /** The boot task alone: its own parent, and not in the task list. */
  function BootKin(boot: Tid): Kin { Kin(boot, boot, None, None, None, false) }

  lemma BootConsistent(boot: Tid)
    ensures Consistent(map[boot := BootKin(boot)], map[boot := []], [])
  {
    NoChildren(map[boot := BootKin(boot)], boot);
  }

  lemma HeadKnown(mem: Memory, t: Tid, q: seq<Tid>)
    requires Chain(mem, t, q)
    ensures t in mem && mem[t].cptr == At(q, 0) && (q != [] ==> q[0] in mem)
  {
    if q != [] { assert Child(mem, t, q, 0); }
  }

  // ---- unlinking a child ----------------------------------------------------------------------

  /** The assignments of REMOVE_LINKS to the family pointers. */
  function Cut(mem: Memory, p: Tid): Memory
    requires p in mem && mem[p].pptr in mem
    requires (mem[p].osptr.Some? ==> mem[p].osptr.value in mem) && (mem[p].ysptr.Some? ==> mem[p].ysptr.value in mem)
  {
    var os, ys, t := mem[p].osptr, mem[p].ysptr, mem[p].pptr;
    var m := if os.Some? then mem[os.value := mem[os.value].(ysptr := ys)] else mem;
    if ys.Some? then m[ys.value := m[ys.value].(osptr := os)] else m[t := m[t].(cptr := os)]
  }

  lemma CutChain(mem: Memory, t: Tid, q: seq<Tid>, i: nat)
    requires Chain(mem, t, q) && i < |q|
    ensures var p := q[i];
            && p in mem && mem[p].pptr == t
            && (mem[p].osptr.Some? ==> mem[p].osptr.value in mem) && (mem[p].ysptr.Some? ==> mem[p].ysptr.value in mem)
            && Cut(mem, p).Keys == mem.Keys && Chain(Cut(mem, p), t, Remove(q, p))
            && (forall x :: x in mem ==> Cut(mem, p)[x].pptr == mem[x].pptr && Cut(mem, p)[x].opptr == mem[x].opptr)
            && (forall x :: x in mem && x !in q ==> SameLinks(mem, Cut(mem, p), x))
            && (forall x :: x in mem && x != t ==> Cut(mem, p)[x].cptr == mem[x].cptr)
  {
    hide Distinct, Remove;
    assert Child(mem, t, q, i);
    if i > 0 { assert Child(mem, t, q, i - 1); }
    if i + 1 < |q| { assert Child(mem, t, q, i + 1); }
    CutRest(mem, t, q, i);
    CutOthers(mem, t, q, i);
  }

  lemma CutOthers(mem: Memory, t: Tid, q: seq<Tid>, i: nat)
    requires i < |q| && t in mem && Child(mem, t, q, i)
    requires (i > 0 ==> Child(mem, t, q, i - 1)) && (i + 1 < |q| ==> Child(mem, t, q, i + 1))
    ensures Cut(mem, q[i]).Keys == mem.Keys
    ensures forall x :: x in mem ==> Cut(mem, q[i])[x].pptr == mem[x].pptr && Cut(mem, q[i])[x].opptr == mem[x].opptr
    ensures forall x :: x in mem && x !in q ==> SameLinks(mem, Cut(mem, q[i]), x)
    ensures forall x :: x in mem && x != t ==> Cut(mem, q[i])[x].cptr == mem[x].cptr
  {
  }

  lemma CutRest(mem: Memory, t: Tid, q: seq<Tid>, i: nat)
    requires Chain(mem, t, q) && i < |q| && Child(mem, t, q, i)
    requires (i > 0 ==> Child(mem, t, q, i - 1)) && (i + 1 < |q| ==> Child(mem, t, q, i + 1))
    ensures Chain(Cut(mem, q[i]), t, Remove(q, q[i]))
  {
    hide Cut, Distinct, Remove;
    var r := q[..i] + q[i + 1..];
    RemoveSplits(q, i);
    RemoveMembers(q, q[i]);
    forall j | 0 <= j < |r| ensures Child(Cut(mem, q[i]), t, r, j) { CutAt(mem, t, q, i, j); }
    CutHead(mem, t, q, i);
  }

  lemma CutHead(mem: Memory, t: Tid, q: seq<Tid>, i: nat)
    requires i < |q| && t in mem && mem[t].cptr == At(q, 0) && Child(mem, t, q, i)
    requires (i > 0 ==> Child(mem, t, q, i - 1)) && (i + 1 < |q| ==> Child(mem, t, q, i + 1))
    ensures Cut(mem, q[i]).Keys == mem.Keys && Cut(mem, q[i])[t].cptr == At(q[..i] + q[i + 1..], 0)
  {
  }

  lemma CutAt(mem: Memory, t: Tid, q: seq<Tid>, i: nat, j: nat)
    requires Chain(mem, t, q) && i < |q| && j < |q| - 1 && Child(mem, t, q, i)
    requires (i > 0 ==> Child(mem, t, q, i - 1)) && (i + 1 < |q| ==> Child(mem, t, q, i + 1))
    ensures Child(Cut(mem, q[i]), t, q[..i] + q[i + 1..], j)
  {
    hide Distinct;
    var r := q[..i] + q[i + 1..];
    var m := if j < i then j else j + 1;
    assert r[j] == q[m] && Child(mem, t, q, m);
    if m < i - 1 { DistinctIndices(q, m, i - 1); }
    if m > i + 1 { DistinctIndices(q, i + 1, m); }
    if i > 0 && m > i - 1 { DistinctIndices(q, i - 1, m); }
    if i + 1 < |q| && m < i + 1 { DistinctIndices(q, m, i + 1); }
    CutLinks(q, i, j);
  }

  lemma CutLinks(q: seq<Tid>, i: nat, j: nat)
    requires i < |q| && j < |q| - 1
    ensures var r, m := q[..i] + q[i + 1..], if j < i then j else j + 1;
            && r[j] == q[m] && At(r, j + 1) == (if m + 1 == i then At(q, i + 1) else At(q, m + 1))
            && Younger(r, j) == if m == i + 1 then Younger(q, i) else Younger(q, m)
  {
  }

  lemma CutConsistent(mem: Memory, kids: Kids, list: seq<Tid>, p: Tid)
    requires Consistent(mem, kids, list) && p in list
    ensures p in mem && mem[p].pptr in kids && mem[p].pptr in mem
    ensures (mem[p].osptr.Some? ==> mem[p].osptr.value in mem) && (mem[p].ysptr.Some? ==> mem[p].ysptr.value in mem)
    ensures var t := mem[p].pptr; Consistent(Cut(mem, p), kids[t := Remove(kids[t], p)], Remove(list, p))
  {
    hide Chain, Remove, SameLinks;
    assert Placed(mem, kids, p);
    var t := mem[p].pptr;
    var i :| 0 <= i < |kids[t]| && kids[t][i] == p;
    CutChain(mem, t, kids[t], i);
    CutChains(mem, kids, t, i);
    CutMembers(mem, kids, list, t, i);
  }

  lemma CutChains(mem: Memory, kids: Kids, t: Tid, i: nat)
    requires Chains(mem, kids) && t in mem && i < |kids[t]|
    ensures var p := kids[t][i];
            && p in mem && mem[p].pptr == t
            && (mem[p].osptr.Some? ==> mem[p].osptr.value in mem) && (mem[p].ysptr.Some? ==> mem[p].ysptr.value in mem)
            && Chains(Cut(mem, p), kids[t := Remove(kids[t], p)])
  {
    hide Chain, Remove, SameLinks, Cut;
    var p := kids[t][i];
    CutChain(mem, t, kids[t], i);
    var now, kin := Cut(mem, p), kids[t := Remove(kids[t], p)];
    forall u | u in now ensures Chain(now, u, kin[u]) {
      if u != t {
        forall x | x in kids[u] ensures x in now && SameLinks(mem, now, x) {
          MemberOf(mem, u, kids[u], x);
          if x in kids[t] { MemberOf(mem, t, kids[t], x); }
        }
        ChainFrame(mem, now, u, kids[u]);
      }
    }
  }

  lemma CutMembers(mem: Memory, kids: Kids, list: seq<Tid>, t: Tid, i: nat)
    requires Consistent(mem, kids, list) && t in mem && i < |kids[t]|
    ensures var p := kids[t][i];
            && p in mem && mem[p].pptr == t
            && (mem[p].osptr.Some? ==> mem[p].osptr.value in mem) && (mem[p].ysptr.Some? ==> mem[p].ysptr.value in mem)
            && Members(Cut(mem, p), kids[t := Remove(kids[t], p)], Remove(list, p))
  {
    hide Chain, Remove, SameLinks, Cut;
    var p := kids[t][i];
    CutChain(mem, t, kids[t], i);
    ChainDistinct(mem, t, kids[t]);
    RemoveMembers(list, p);
    RemoveMembers(kids[t], p);
    var now, kin := Cut(mem, p), kids[t := Remove(kids[t], p)];
    forall x | x in Remove(list, p) ensures Placed(now, kin, x) { assert Placed(mem, kids, x); }
    forall u, x | u in kin && x in kin[u] ensures x in Remove(list, p) {
      MemberOf(mem, u, kids[u], x);
    }
  }

  lemma ChainDistinct(mem: Memory, t: Tid, q: seq<Tid>)
    requires Chain(mem, t, q)
    ensures Distinct(q)
  {
  }

  /** What consistent links mean for one linked task: the two sibling pointers are inverse to
      each other, siblings share a parent, and the parent points at the one child that has
      no younger sibling. */
  lemma SiblingsInverse(mem: Memory, kids: Kids, list: seq<Tid>, p: Tid)
    requires Consistent(mem, kids, list) && p in list
    ensures p in mem && mem[p].pptr in mem
    ensures mem[p].osptr.Some? ==>
              var o := mem[p].osptr.value; o in mem && mem[o].ysptr == Some(p) && mem[o].pptr == mem[p].pptr
    ensures mem[p].ysptr.Some? ==>
              var y := mem[p].ysptr.value; y in mem && mem[y].osptr == Some(p) && mem[y].pptr == mem[p].pptr
    ensures mem[mem[p].pptr].cptr == Some(p) <==> mem[p].ysptr.None?
  {
    assert Placed(mem, kids, p);
    var t := mem[p].pptr;
    var q := kids[t];
    assert Chain(mem, t, q);
    var j :| 0 <= j < |q| && q[j] == p;
    assert Child(mem, t, q, j);
    if j > 0 {
      assert Child(mem, t, q, j - 1);
      DistinctIndices(q, 0, j);
    }
    if j + 1 < |q| { assert Child(mem, t, q, j + 1); }
  }

  // ---- the dying task's children ---------------------------------------------------------------

  /** Halfway through exit_notify: the chain of the dying task f is loose, because the new
      head still points back at the child that has left. */
  ghost predicate Orphaning(mem: Memory, kids: Kids, f: Tid) {
    && kids.Keys == mem.Keys && f in kids && LooseChain(mem, f, kids[f])
    && forall t :: t in mem && t != f ==> Chain(mem, t, kids[t])
  }

  lemma OrphaningStarts(mem: Memory, kids: Kids, f: Tid)
    requires Chains(mem, kids) && f in mem
    ensures Orphaning(mem, kids, f)
  {
    forall j | 0 <= j < |kids[f]| ensures LooseChild(mem, f, kids[f], j) { assert Child(mem, f, kids[f], j); }
  }

  lemma OrphaningEnds(mem: Memory, kids: Kids, f: Tid)
    requires Orphaning(mem, kids, f) && f in mem && mem[f].cptr.None?
    ensures f in kids && kids[f] == [] && Chains(mem, kids)
  {
  }

  /** current->p_cptr = p->p_osptr */
  function Beheaded(mem: Memory, f: Tid, p: Tid): Memory
    requires f in mem && p in mem
  {
    mem[f := mem[f].(cptr := mem[p].osptr)]
  }

  lemma BeheadedChains(mem: Memory, kids: Kids, f: Tid)
    requires Orphaning(mem, kids, f) && kids[f] != []
    ensures var p, q := kids[f][0], kids[f];
            && p in mem && mem[f].cptr == Some(p) && mem[p].pptr == f && p !in q[1..]
            && Orphaning(Beheaded(mem, f, p), kids[f := q[1..]], f)
  {
    var p, q := kids[f][0], kids[f];
    assert LooseChild(mem, f, q, 0);
    var now := Beheaded(mem, f, p);
    forall j | 0 <= j < |q[1..]| ensures LooseChild(now, f, q[1..], j) { assert LooseChild(mem, f, q, j + 1); }
    assert LooseChain(now, f, q[1..]);
    forall t | t in now && t != f ensures Chain(now, t, kids[t]) {
      forall x | x in kids[t] ensures x in now && SameLinks(mem, now, x) { MemberOf(mem, t, kids[t], x); }
      ChainFrame(mem, now, t, kids[t]);
    }
  }

  lemma PushedLoose(mem: Memory, kids: Kids, f: Tid, p: Tid, t: Tid)
    requires Orphaning(mem, kids, f) && p in mem && t in mem && t != f && p !in kids[f]
    requires p !in kids[t]
    ensures mem[t].cptr.Some? ==> mem[t].cptr.value in mem
    ensures LooseChain(Pushed(mem, p, t), f, kids[f])
  {
    if kids[t] != [] { assert Child(mem, t, kids[t], 0); }
    var now := Pushed(mem, p, t);
    forall j | 0 <= j < |kids[f]| ensures LooseChild(now, f, kids[f], j) { assert LooseChild(mem, f, kids[f], j); }
  }

  /** The chains after one child has been handed over. */
  lemma HandedOver(mem: Memory, kids: Kids, f: Tid, p: Tid, t: Tid)
    requires Orphaning(mem, kids, f) && p in mem && t in mem && t != f && forall u :: u in kids ==> p !in kids[u]
    ensures mem[t].cptr.Some? ==> mem[t].cptr.value in mem
    ensures Orphaning(Pushed(mem, p, t), kids[t := [p] + kids[t]], f)
  {
    hide Chain, LooseChain, Pushed, At;
    PushedChain(mem, p, t, kids[t]);
    HeadKnown(mem, t, kids[t]);
    PushedParents(mem, p, t, kids[t]);
    PushedLoose(mem, kids, f, p, t);
    var now, kin := Pushed(mem, p, t), kids[t := [p] + kids[t]];
    forall u | u in now && u != f ensures Chain(now, u, kin[u]) {
      if u != t { PushedOther(mem, p, t, kids[t], u, kids[u]); }
    }
  }

  /** A linked task is in the chain of its parent only. */
  lemma OneChain(mem: Memory, kids: Kids, f: Tid, u: Tid, p: Tid)
    requires Orphaning(mem, kids, f) && u in kids && p in kids[u]
    ensures p in mem && mem[p].pptr == u
  {
    var j :| 0 <= j < |kids[u]| && kids[u][j] == p;
    if u == f { assert LooseChild(mem, u, kids[u], j); } else { assert Child(mem, u, kids[u], j); }
  }

  /** One turn of the loop in exit_notify. */
  lemma AdoptStep(mem: Memory, kids: Kids, list: seq<Tid>, f: Tid)
    requires Orphaning(mem, kids, f) && Members(mem, kids, list) && kids[f] != []
    requires forall x :: x in list && x in mem ==> mem[x].opptr != f
    ensures var p := kids[f][0];
            && p in mem && mem[f].cptr == Some(p) && mem[p].opptr in mem && mem[p].opptr != f
            && var m, t := Beheaded(mem, f, p), mem[p].opptr;
               && (m[t].cptr.Some? ==> m[t].cptr.value in m)
               && var kin := kids[f := kids[f][1..]];
                  && Orphaning(Pushed(m, p, t), kin[t := [p] + kin[t]], f)
                  && Members(Pushed(m, p, t), kin[t := [p] + kin[t]], list)
                  && Pushed(m, p, t).Keys == mem.Keys
                  && forall x :: x in mem ==> Pushed(m, p, t)[x].opptr == mem[x].opptr
  {
    hide Chain, LooseChain, Pushed, At;
    var p := kids[f][0];
    BeheadedChains(mem, kids, f);
    assert p in list && Placed(mem, kids, p);
    var m, t, kin := Beheaded(mem, f, p), mem[p].opptr, kids[f := kids[f][1..]];
    forall u | u in kids && u != f ensures p !in kids[u] {
      if p in kids[u] { OneChain(mem, kids, f, u, p); }
    }
    HandedOver(m, kin, f, p, t);
    HeadKnown(m, t, kin[t]);
    PushedParents(m, p, t, kin[t]);
    AdoptMembers(mem, kids, list, f);
  }

  lemma AdoptMembers(mem: Memory, kids: Kids, list: seq<Tid>, f: Tid)
    requires Orphaning(mem, kids, f) && Members(mem, kids, list) && kids[f] != []
    requires kids[f][0] in mem && mem[kids[f][0]].opptr in mem && mem[kids[f][0]].opptr != f
    requires forall u :: u in kids && u != f ==> kids[f][0] !in kids[u]
    ensures var p, kin := kids[f][0], kids[f := kids[f][1..]];
            var m, t := Beheaded(mem, f, p), mem[p].opptr;
            && (m[t].cptr.Some? ==> m[t].cptr.value in m)
            && Members(Pushed(m, p, t), kin[t := [p] + kin[t]], list)
  {
    hide Chain, LooseChain, Pushed, At;
    var p, m, t, kin := kids[f][0], Beheaded(mem, f, kids[f][0]), mem[kids[f][0]].opptr, kids[f := kids[f][1..]];
    BeheadedChains(mem, kids, f);
    HeadKnown(m, t, kin[t]);
    PushedParents(m, p, t, kin[t]);
    var now, out := Pushed(m, p, t), kin[t := [p] + kin[t]];
    forall x | x in list ensures Placed(now, out, x) {
      assert Placed(mem, kids, x);
      if x != p && mem[x].pptr == f { assert x in kids[f][1..]; }
    }
    forall u, x | u in out && x in out[u] ensures x in list {
      if u == t && x == p { assert p in kids[f]; } else { assert x in kids[u]; }
    }
  }

  /** The children in q that go to t, youngest first, when the chain is handed over from
      its head on. */
  function Came(q: seq<Tid>, mem: Memory, t: Tid): seq<Tid>
    requires forall x :: x in q ==> x in mem
  {
    if q == [] then []
    else
      var p := q[|q| - 1];
      (if mem[p].opptr == t then [p] else []) + Came(q[..|q| - 1], mem, t)
  }

  lemma {:induction false} CameHas(q: seq<Tid>, mem: Memory, t: Tid, x: Tid)
    requires forall y :: y in q ==> y in mem
    ensures x in Came(q, mem, t) <==> x in q && mem[x].opptr == t
  {
    if q != [] {
      CameHas(q[..|q| - 1], mem, t, x);
      assert x in q <==> x in q[..|q| - 1] || x == q[|q| - 1];
    }
  }

  /** The children that go to t come in the opposite order: the one handed over last, which
      was the oldest, is the youngest there. */
  lemma {:induction false} CameReversed(q: seq<Tid>, mem: Memory, t: Tid, i: nat, j: nat)
    requires Distinct(q) && (forall y :: y in q ==> y in mem) && i < j < |Came(q, mem, t)|
    ensures var c := Came(q, mem, t); c[i] in q && c[j] in q && IndexOf(q, c[j]) < IndexOf(q, c[i])
  {
    var c, n := Came(q, mem, t), |q| - 1;
    var r, d := Came(q[..n], mem, t), if mem[q[n]].opptr == t then 1 else 0;
    PrefixDistinct(q, n);
    assert c[j] == r[j - d];
    CameHas(q[..n], mem, t, c[j]);
    PrefixIndex(q, n, c[j]);
    if i < d {
      if c[j] == q[n] { DistinctLast(q, q[n]); }
      BeforeLast(q, q[n], c[j]);
    } else {
      CameReversed(q[..n], mem, t, i - d, j - d);
      PrefixIndex(q, n, c[i]);
    }
  }

  /** The thread of the group that inherits, or the child reaper. */
  function Reaper(ring: seq<Tid>, exiting: set<Tid>, childReaper: Tid): Tid {
    if |ring| <= 1 then childReaper
    else if ring[1] !in exiting then ring[1]
    else Reaper(ring[1..], exiting, childReaper)
  }

  lemma {:induction false} ReaperFirst(ring: seq<Tid>, exiting: set<Tid>, childReaper: Tid, i: nat)
    requires 1 <= i <= |ring| && (forall j :: 1 <= j < i ==> ring[j] in exiting)
    requires i < |ring| ==> ring[i] !in exiting
    ensures Reaper(ring, exiting, childReaper) == if i < |ring| then ring[i] else childReaper
  {
    if i > 1 { ReaperFirst(ring[1..], exiting, childReaper, i - 1); }
  }

  /** Every listed task whose original parent was father has a new one, and does not give
      its slice back to whoever reaps it. */
  function Forgotten(mem: Memory, list: seq<Tid>, father: Tid, reaper: Tid, childReaper: Tid): Memory {
    map p | p in mem ::
      if p in list && mem[p].opptr == father
      then mem[p].(opptr := if p == reaper then childReaper else reaper, firstTimeSlice := false)
      else mem[p]
  }

  lemma {:induction false} ReaperKnown(ring: seq<Tid>, exiting: set<Tid>, childReaper: Tid)
    requires |ring| > 0
    ensures Reaper(ring, exiting, childReaper) == childReaper || Reaper(ring, exiting, childReaper) in ring[1..]
  {
    if |ring| > 1 && ring[1] in exiting {
      ReaperKnown(ring[1..], exiting, childReaper);
      assert forall x :: x in ring[1..][1..] ==> x in ring[1..];
    }
  }

  /** No task is left with the dying task as its original parent. */
  lemma ForgottenFree(mem: Memory, kids: Kids, list: seq<Tid>, father: Tid, reaper: Tid, childReaper: Tid)
    requires Consistent(mem, kids, list) && reaper != father && childReaper != father
    ensures Forgotten(mem, list, father, reaper, childReaper).Keys == mem.Keys
    ensures forall p :: p in list ==> p in mem && Forgotten(mem, list, father, reaper, childReaper)[p].opptr != father
  {
    forall p | p in list ensures p in mem { assert Placed(mem, kids, p); }
  }

  /** Who inherits the children of a dying task: the first other thread of its group that is
      not exiting, or else the child reaper, and the child reaper also if a task would become
      its own parent. An heir never gets the rest of a child's first slice. All other tasks
      are left alone. */
  lemma Heirs(mem: Memory, list: seq<Tid>, father: Tid, ring: seq<Tid>, exiting: set<Tid>, childReaper: Tid, p: Tid)
    requires p in mem && |ring| > 0
    ensures var now := Forgotten(mem, list, father, Reaper(ring, exiting, childReaper), childReaper);
            && p in now && now[p].(opptr := mem[p].opptr, firstTimeSlice := mem[p].firstTimeSlice) == mem[p]
            && if p in list && mem[p].opptr == father then
                 && !now[p].firstTimeSlice && (now[p].opptr == p ==> p == childReaper)
                 && (now[p].opptr == childReaper || IsHeir(ring, exiting, now[p].opptr))
                 && forall t :: t != p && t != childReaper && IsHeir(ring, exiting, t) ==> now[p].opptr == t
               else now[p] == mem[p]
  {
    HeirIs(ring, exiting, childReaper);
    forall t | IsHeir(ring, exiting, t) ensures t == Reaper(ring, exiting, childReaper) {
      OneHeir(ring, exiting, childReaper, t);
    }
  }

  /** t is the first thread after the dying one that is not exiting. */
  ghost predicate IsHeir(ring: seq<Tid>, exiting: set<Tid>, t: Tid) {
    exists j :: 1 <= j < |ring| && ring[j] == t && t !in exiting && forall i :: 1 <= i < j ==> ring[i] in exiting
  }

  lemma OneHeir(ring: seq<Tid>, exiting: set<Tid>, childReaper: Tid, t: Tid)
    requires IsHeir(ring, exiting, t)
    ensures t == Reaper(ring, exiting, childReaper)
  {
    var j :| 1 <= j < |ring| && ring[j] == t && t !in exiting && forall i :: 1 <= i < j ==> ring[i] in exiting;
    ReaperFirst(ring, exiting, childReaper, j);
  }

  lemma {:induction false} HeirIs(ring: seq<Tid>, exiting: set<Tid>, childReaper: Tid)
    requires |ring| > 0
    ensures var r := Reaper(ring, exiting, childReaper); r == childReaper || IsHeir(ring, exiting, r)
  {
    if |ring| > 1 {
      if ring[1] !in exiting {
        assert IsHeir(ring, exiting, ring[1]);
      } else {
        HeirIs(ring[1..], exiting, childReaper);
        var r := Reaper(ring, exiting, childReaper);
        if r != childReaper {
          var j :| 1 <= j < |ring[1..]| && ring[1..][j] == r && forall i :: 1 <= i < j ==> ring[1..][i] in exiting;
          forall i | 1 <= i < j + 1 ensures ring[i] in exiting { assert i > 1 ==> ring[1..][i - 1] == ring[i]; }
          assert ring[j + 1] == r;
        }
      }
    }
  }

  lemma ForgottenConsistent(mem: Memory, kids: Kids, list: seq<Tid>, father: Tid, reaper: Tid, childReaper: Tid)
    requires Consistent(mem, kids, list) && reaper in mem && childReaper in mem
    ensures Consistent(Forgotten(mem, list, father, reaper, childReaper), kids, list)
  {
    hide Chain;
    var now := Forgotten(mem, list, father, reaper, childReaper);
    forall t | t in now ensures Chain(now, t, kids[t]) {
      forall x | x in kids[t] ensures x in now && SameLinks(mem, now, x) { MemberOf(mem, t, kids[t], x); }
      ChainFrame(mem, now, t, kids[t]);
    }
    forall p | p in list ensures Placed(now, kids, p) { assert Placed(mem, kids, p); }
  }

  lemma Starts(mem: Memory, kids: Kids, list: seq<Tid>, f: Tid)
    requires Consistent(mem, kids, list) && f in mem
    ensures Orphaning(mem, kids, f) && Members(mem, kids, list) && f in kids && kids.Keys == mem.Keys
    ensures forall x :: x in kids[f] ==> x in mem
    ensures Handed(kids, kids, mem, kids[f], 0, f)
  {
    OrphaningStarts(mem, kids, f);
    forall x | x in kids[f] ensures x in mem { MemberOf(mem, f, kids[f], x); }
  }

  /** A new child stands in front, so its parent is the one whose chain it is in. */
  lemma Linked(mem: Memory, kids: Kids, list: seq<Tid>, p: Tid)
    requires Consistent(mem, kids, list) && p in list
    ensures p in mem && forall t :: t in kids && p in kids[t] ==> mem[p].pptr == t
  {
    hide Chain;
    forall t | t in kids && p in kids[t] ensures p in mem && mem[p].pptr == t { MemberOf(mem, t, kids[t], p); }
    assert Placed(mem, kids, p);
  }

  lemma KidsKnown(mem: Memory, kids: Kids, list: seq<Tid>)
    requires Consistent(mem, kids, list)
    ensures kids.Keys == mem.Keys && forall p :: p in list ==> p in mem
    ensures forall t, p :: t in kids && p in kids[t] ==> p in mem
  {
    forall p | p in list ensures p in mem { assert Placed(mem, kids, p); }
  }

  lemma HeadLeft(mem: Memory, kids: Kids, f: Tid)
    requires Orphaning(mem, kids, f) && f in mem && mem[f].cptr.Some?
    ensures f in kids && kids[f] != [] && mem[f].cptr.value == kids[f][0]
  {
  }

  /** The first i children in q have arrived where they belong. */
  ghost predicate Handed(k: Kids, kids: Kids, mem: Memory, q: seq<Tid>, i: nat, f: Tid) {
    && i <= |q| && kids.Keys == k.Keys && (forall x :: x in q ==> x in mem)
    && f in kids && kids[f] == q[i..]
    && forall t :: t in kids && t != f ==> kids[t] == Came(q[..i], mem, t) + k[t]
  }

  lemma HandedNext(k: Kids, kids: Kids, mem: Memory, q: seq<Tid>, i: nat, f: Tid)
    requires Handed(k, kids, mem, q, i, f) && i < |q| && mem[q[i]].opptr != f && mem[q[i]].opptr in kids
    ensures kids[f] != [] && kids[f][0] == q[i]
    ensures var kin, t := kids[f := kids[f][1..]], mem[q[i]].opptr;
            Handed(k, kin[t := [q[i]] + kin[t]], mem, q, i + 1, f)
  {
    hide Came;
    CameNext(q, mem, i);
    var kin, t, p := kids[f := kids[f][1..]], mem[q[i]].opptr, q[i];
    var out := kin[t := [p] + kin[t]];
    assert kids[f][1..] == q[i + 1..];
    forall u | u in out && u != f ensures out[u] == Came(q[..i + 1], mem, u) + k[u] {
      assert kids[u] == Came(q[..i], mem, u) + k[u];
      if u == t { assert [p] + kids[u] == ([p] + Came(q[..i], mem, u)) + k[u]; }
    }
  }

  lemma HandedKeys(k: Kids, kids: Kids, mem: Memory, q: seq<Tid>, i: nat, f: Tid)
    requires Handed(k, kids, mem, q, i, f)
    ensures kids.Keys == k.Keys && f in kids && kids[f] == q[i..]
  {
  }

  lemma CameNext(q: seq<Tid>, mem: Memory, i: nat)
    requires i < |q| && forall x :: x in q ==> x in mem
    ensures forall t: Tid :: Came(q[..i + 1], mem, t) ==
              if mem[q[i]].opptr == t then [q[i]] + Came(q[..i], mem, t) else Came(q[..i], mem, t)
  {
    assert q[..i + 1][..i] == q[..i];
  }

  lemma HandedAll(k: Kids, kids: Kids, mem: Memory, q: seq<Tid>, i: nat, f: Tid)
    requires Handed(k, kids, mem, q, i, f) && kids[f] == []
    ensures (forall x :: x in q ==> x in mem) && kids.Keys == k.Keys
    ensures forall t :: t in kids && t != f ==> kids[t] == Came(q, mem, t) + k[t]
  {
    assert q[..i] == q;
  }

  lemma ForgottenNext(mem: Memory, list: seq<Tid>, i: nat, father: Tid, reaper: Tid, childReaper: Tid)
    requires i < |list| && list[i] in mem && Distinct(list)
    ensures var p, m := list[i], Forgotten(mem, list[..i], father, reaper, childReaper);
            && p in m && m[p] == mem[p]
            && Forgotten(mem, list[..i + 1], father, reaper, childReaper) ==
               if m[p].opptr == father
               then m[p := m[p].(opptr := if p == reaper then childReaper else reaper, firstTimeSlice := false)]
               else m
  {
    var p := list[i];
    if p in list[..i] {
      var j :| 0 <= j < i && list[j] == p;
      DistinctIndices(list, j, i);
    }
    assert list[..i + 1] == list[..i] + [p];
  }

  class Family {
    var mem: Memory
    var list: seq<Tid>       // the task list, without the boot task
    ghost var kids: Kids     // the children of every task, youngest first

    ghost predicate Valid()
      reads this
    {
      Consistent(mem, kids, list)
    }

    constructor (boot: Tid)
      ensures Valid() && mem == map[boot := BootKin(boot)] && list == [] && kids == map[boot := []]
    {
      BootConsistent(boot);
      mem, list, kids := map[boot := BootKin(boot)], [], map[boot := []];
    }

    /** The links do_fork gives to a new task, which starts as a copy of `current`. */
    method Fork(p: Tid, current: Tid, cloneParent: bool, traced: bool)
      requires Valid() && current in mem && mem[current].pptr in mem && mem[current].opptr in mem && p !in mem
      modifies this
      ensures Valid() && list == old(list) + [p] && mem.Keys == old(mem).Keys + {p}
      ensures var me := old(mem)[current];
              var t, o := if cloneParent || traced then me.pptr else current, if cloneParent then me.opptr else current;
              && t in old(kids) && kids == old(kids)[p := []][t := [p] + old(kids)[t]]
              && (forall x :: x in old(mem) ==> mem[x].opptr == old(mem)[x].opptr)
              && mem[p].opptr == o && mem[p].pptr == t
    {
      hide Consistent;
      var me := mem[current];
      var x := me.(cptr := None, firstTimeSlice := true);
      if !cloneParent {
        x := x.(opptr := current);
        if !traced {
          x := x.(pptr := current);
        }
      }
      KidsKnown(mem, kids, list);
      EnteredConsistent(mem, kids, list, p, x);
      mem := mem[p := x];
      kids := kids[p := []];
      SetLinks(p);
      Linked(mem, kids, list, p);
      assert kids[x.pptr][0] == p;
    }

    /** Where SET_LINKS and exit_notify agree: p goes in front of its parent's children. */
    method PutInFront(p: Tid)
      requires p in mem && mem[p].pptr in mem && var t := mem[p].pptr; mem[t].cptr.Some? ==> mem[t].cptr.value in mem
      modifies this`mem
      ensures mem == Fronted(old(mem), p)
    {
      mem := mem[p := mem[p].(osptr := mem[mem[p].pptr].cptr)];
      if mem[p].osptr.Some? {
        var o := mem[p].osptr.value;
        mem := mem[o := mem[o].(ysptr := Some(p))];
      }
      mem := mem[mem[p].pptr := mem[mem[p].pptr].(cptr := Some(p))];
    }

    /** SET_LINKS */
    method SetLinks(p: Tid)
      requires Valid() && p in mem && p !in list && mem[p].pptr in mem && mem[p].opptr in mem
      modifies this
      ensures Valid() && list == old(list) + [p]
      ensures var t := old(mem)[p].pptr; t in old(kids) && kids == old(kids)[t := [p] + old(kids)[t]]
      ensures mem.Keys == old(mem).Keys && forall x :: x in mem ==> mem[x].opptr == old(mem)[x].opptr
    {
      hide Consistent, Chains, Members, Pushed, Fronted;
      var t := mem[p].pptr;
      PushedConsistent(mem, kids, list, p, t);
      FrontedIsPushed(mem, p, t);
      assert mem[p].(pptr := t) == mem[p];
      kids := kids[t := [p] + kids[t]];
      list := list + [p];
      mem := mem[p := mem[p].(ysptr := None)];
      PutInFront(p);
      KidsKnown(mem, kids, list);
    }

    /** REMOVE_LINKS */
    method RemoveLinks(p: Tid)
      requires Valid() && p in list
      modifies this
      ensures Valid() && list == Remove(old(list), p) && p in old(mem)
      ensures var t := old(mem)[p].pptr; t in old(kids) && kids == old(kids)[t := Remove(old(kids)[t], p)]
    {
      hide Consistent, Chains, Members, Remove;
      CutConsistent(mem, kids, list, p);
      ghost var was, t := mem, mem[p].pptr;
      kids := kids[t := Remove(kids[t], p)];
      list := Remove(list, p);
      var os, ys := mem[p].osptr, mem[p].ysptr;
      if os.Some? {
        mem := mem[os.value := mem[os.value].(ysptr := ys)];
      }
      if ys.Some? {
        mem := mem[ys.value := mem[ys.value].(osptr := os)];
      } else {
        mem := mem[mem[p].pptr := mem[mem[p].pptr].(cptr := os)];
      }
    }

    /** forget_original_parent: `ring` is the thread group of father, from father on. */
    method ForgetOriginalParent(father: Tid, childReaper: Tid, ring: seq<Tid>, exiting: set<Tid>)
      requires Valid() && father in mem && childReaper in mem && childReaper != father
      requires |ring| > 0 && ring[0] == father && father !in ring[1..] && forall t :: t in ring ==> t in mem
      modifies this`mem
      ensures Valid() && mem == Forgotten(old(mem), list, father, Reaper(ring, exiting, childReaper), childReaper)
    {
      var reaper := childReaper;
      var i := 1;
      while i < |ring|
        invariant 1 <= i <= |ring| && (forall j :: 1 <= j < i ==> ring[j] in exiting) && reaper == childReaper
      {
        if ring[i] !in exiting {
          reaper := ring[i];
          break;
        }
        i := i + 1;
      }
      ReaperFirst(ring, exiting, childReaper, i);
      ghost var was := mem;
      Walk(father, reaper, childReaper);
      ForgottenConsistent(was, kids, list, father, reaper, childReaper);
    }

    /** The loop over all tasks in forget_original_parent. */
    method Walk(father: Tid, reaper: Tid, childReaper: Tid)
      requires Distinct(list) && forall p :: p in list ==> p in mem
      modifies this`mem
      ensures mem == Forgotten(old(mem), list, father, reaper, childReaper)
    {
      ghost var was := mem;
      var i := 0;
      while i < |list|
        invariant 0 <= i <= |list| && mem == Forgotten(was, list[..i], father, reaper, childReaper)
      {
        var p := list[i];
        ForgottenNext(was, list, i, father, reaper, childReaper);
        if mem[p].opptr == father {
          mem := mem[p := mem[p].(opptr := if p == reaper then childReaper else reaper, firstTimeSlice := false)];
        }
        i := i + 1;
      }
      assert list[..i] == list;
    }

    /** exit_notify, as far as the family links go. */
    method ExitNotify(father: Tid, childReaper: Tid, ring: seq<Tid>, exiting: set<Tid>)
      requires Valid() && father in mem && childReaper in mem && childReaper != father
      requires |ring| > 0 && ring[0] == father && father !in ring[1..] && forall t :: t in ring ==> t in mem
      modifies this`mem, this`kids
      ensures Valid() && mem.Keys == old(mem).Keys
      ensures var m := Forgotten(old(mem), list, father, Reaper(ring, exiting, childReaper), childReaper);
              && (forall p :: p in list ==> p in mem && p in m && mem[p].opptr == m[p].opptr != father)
              && father in kids && kids[father] == [] && kids.Keys == old(kids).Keys && father in old(kids)
              && (forall p :: p in old(kids)[father] ==> p in m)
              && forall t :: t in kids && t != father ==> kids[t] == Came(old(kids)[father], m, t) + old(kids)[t]
    {
      hide Consistent, Reaper, Came, Forgotten;
      ReaperKnown(ring, exiting, childReaper);
      KidsKnown(mem, kids, list);
      ForgottenFree(mem, kids, list, father, Reaper(ring, exiting, childReaper), childReaper);
      ForgetOriginalParent(father, childReaper, ring, exiting);
      HandOver(father);
    }

    /** The assignments that take child p from father to its original parent. */
    method HandOverOne(father: Tid, p: Tid)
      requires father in mem && p in mem && mem[p].opptr in mem && mem[p].opptr != father
      requires var t := mem[p].opptr; mem[t].cptr.Some? ==> mem[t].cptr.value in mem
      modifies this`mem
      ensures var m, t := Beheaded(old(mem), father, p), old(mem)[p].opptr;
              (m[t].cptr.Some? ==> m[t].cptr.value in m) && mem == Pushed(m, p, t)
    {
      hide Pushed, Fronted;
      ghost var m, t := Beheaded(mem, father, p), mem[p].opptr;
      FrontedIsPushed(m, p, t);
      mem := mem[father := mem[father].(cptr := mem[p].osptr)];
      mem := mem[p := mem[p].(ysptr := None)];
      mem := mem[p := mem[p].(pptr := mem[p].opptr)];
      assert mem == m[p := m[p].(pptr := t, ysptr := None)];
      PutInFront(p);
    }

    /** One turn of that loop: the youngest child left leaves. */
    method HandOverHead(father: Tid, ghost m: Memory, ghost k: Kids, ghost q: seq<Tid>, ghost i: nat)
      requires Orphaning(mem, kids, father) && Members(mem, kids, list) && father in mem && mem[father].cptr.Some?
      requires mem.Keys == m.Keys == k.Keys && forall x :: x in mem ==> mem[x].opptr == m[x].opptr
      requires forall p :: p in list && p in mem ==> mem[p].opptr != father
      requires i < |q| && Handed(k, kids, m, q, i, father) && father in kids && kids[father] == q[i..]
      modifies this`mem, this`kids
      ensures Orphaning(mem, kids, father) && Members(mem, kids, list) && kids.Keys == k.Keys
      ensures mem.Keys == m.Keys && forall x :: x in mem ==> mem[x].opptr == m[x].opptr
      ensures Handed(k, kids, m, q, i + 1, father) && father in kids && kids[father] == q[i + 1..]
    {
      hide Chain, Pushed, Fronted, Members, Chains, LooseChain, Came, Orphaning, Handed;
      HeadLeft(mem, kids, father);
      AdoptStep(mem, kids, list, father);
      var p := mem[father].cptr.value;
      ghost var t := mem[p].opptr;
      HandedKeys(k, kids, m, q, i, father);
      HandedNext(k, kids, m, q, i, father);
      ghost var kin := kids[father := kids[father][1..]];
      kids := kin[t := [p] + kin[t]];
      HandOverOne(father, p);
      HandedKeys(k, kids, m, q, i + 1, father);
    }

    /** The loop of exit_notify: every child moves to the front of its original parent's
        children. In the middle the chain of the dying task is not consistent. */
    method HandOver(father: Tid)
      requires Valid() && father in mem && forall p :: p in list && p in mem ==> mem[p].opptr != father
      modifies this`mem, this`kids
      ensures Valid() && mem.Keys == old(mem).Keys && kids.Keys == old(kids).Keys
      ensures forall x :: x in mem ==> mem[x].opptr == old(mem)[x].opptr
      ensures father in kids && kids[father] == [] && forall p :: p in old(kids)[father] ==> p in old(mem)
      ensures forall t :: t in kids && t != father ==> kids[t] == Came(old(kids)[father], old(mem), t) + old(kids)[t]
    {
      hide Chain, Pushed, Fronted, Members, Chains, LooseChain, Came, Orphaning, Handed;
      Starts(mem, kids, list, father);
      ghost var q, m, k := kids[father], mem, kids;
      ghost var i := 0;
      while mem[father].cptr.Some?
        invariant Orphaning(mem, kids, father) && Members(mem, kids, list) && kids.Keys == k.Keys
        invariant mem.Keys == m.Keys && forall x :: x in mem ==> mem[x].opptr == m[x].opptr
        invariant i <= |q| && kids[father] == q[i..]
        invariant Handed(k, kids, m, q, i, father)
        decreases |q| - i
      {
        HeadLeft(mem, kids, father);
        HandOverHead(father, m, k, q, i);
        i := i + 1;
      }
      OrphaningEnds(mem, kids, father);
      HandedAll(k, kids, m, q, i, father);
    }
  }
}
