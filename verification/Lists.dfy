/** Sequences as kernel lists: removal of an entry, insertion, and sums. */
module Lists {

  predicate Distinct<T(==)>(s: seq<T>) {
    s == [] || (s[0] !in s[1..] && Distinct(s[1..]))
  }

  /** list_del: the list without the first occurrence of x. */
  function Remove<T(==)>(s: seq<T>, x: T): (r: seq<T>)
    ensures x !in s ==> r == s
    ensures x in s ==> |r| == |s| - 1
  {
    if s == [] then []
    else if s[0] == x then s[1..]
    else [s[0]] + Remove(s[1..], x)
  }

  function Insert<T>(s: seq<T>, i: nat, x: T): seq<T>
    requires i <= |s|
  {
    s[..i] + [x] + s[i..]
  }

  lemma {:induction false} DistinctIndices<T>(s: seq<T>, i: nat, j: nat)
    requires Distinct(s) && i < j < |s|
    ensures s[i] != s[j]
  {
    if i > 0 {
      DistinctIndices(s[1..], i - 1, j - 1);
    } else {
      assert s[j] == s[1..][j - 1];
    }
  }

  /** Removing one entry of a list without duplicates keeps all others, in order. */
  lemma {:induction false} RemoveSplits<T>(s: seq<T>, i: nat)
    requires Distinct(s) && i < |s|
    ensures Remove(s, s[i]) == s[..i] + s[i + 1..]
    decreases i
  {
    if i > 0 {
      DistinctIndices(s, 0, i);
      RemoveSplits(s[1..], i - 1);
      assert s[1..][..i - 1] == s[1..i];
      assert s[1..][i..] == s[i + 1..];
    }
  }

  lemma {:induction false} RemoveMembers<T>(s: seq<T>, x: T)
    requires Distinct(s)
    ensures Distinct(Remove(s, x))
    ensures forall y :: y in Remove(s, x) <==> y in s && y != x
  {
    if s != [] {
      RemoveMembers(s[1..], x);
      if s[0] != x {
        var r := Remove(s[1..], x);
        assert Remove(s, x)[0] == s[0] && Remove(s, x)[1..] == r;
        forall y ensures y in Remove(s, x) <==> y == s[0] || y in r {}
      }
    }
  }

  lemma {:induction false} InsertMembers<T>(s: seq<T>, i: nat, x: T)
    requires Distinct(s) && x !in s && i <= |s|
    ensures Distinct(Insert(s, i, x))
    ensures forall y :: y in Insert(s, i, x) <==> y in s || y == x
    decreases i
  {
    var r := Insert(s, i, x);
    if i == 0 {
      assert r == [x] + s && r[1..] == s;
    } else {
      InsertMembers(s[1..], i - 1, x);
      assert r == [s[0]] + Insert(s[1..], i - 1, x) && r[1..] == Insert(s[1..], i - 1, x);
    }
  }

  /** The position of x in s, or |s|. */
  function IndexOf<T(==)>(s: seq<T>, x: T): nat {
    if s == [] || s[0] == x then 0 else 1 + IndexOf(s[1..], x)
  }

  lemma {:induction false} BeforeLast<T>(q: seq<T>, p: T, t: T)
    requires Distinct(q) && q != [] && q[|q| - 1] == p && t in q && t != p
    ensures IndexOf(q, t) < IndexOf(q, p)
  {
    if q[0] != t { BeforeLast(q[1..], p, t); }
  }

  lemma {:induction false} PrefixIndex<T>(q: seq<T>, n: nat, t: T)
    requires n <= |q| && t in q[..n]
    ensures IndexOf(q[..n], t) == IndexOf(q, t) < n
  {
    if q[0] != t {
      assert q[..n][1..] == q[1..][..n - 1];
      PrefixIndex(q[1..], n - 1, t);
    }
  }

  lemma {:induction false} PrefixDistinct<T>(q: seq<T>, n: nat)
    requires Distinct(q) && n <= |q|
    ensures Distinct(q[..n])
  {
    if n > 0 {
      assert q[..n][1..] == q[1..][..n - 1];
      PrefixDistinct(q[1..], n - 1);
    }
  }

  lemma DistinctLast<T>(q: seq<T>, p: T)
    requires Distinct(q) && q != [] && q[|q| - 1] == p
    ensures p !in q[..|q| - 1]
  {
    if p in q[..|q| - 1] {
      var k :| 0 <= k < |q| - 1 && q[k] == p;
      DistinctIndices(q, k, |q| - 1);
    }
  }

  /** Total number of entries in a sequence of lists. */
  function Total<T>(qs: seq<seq<T>>): nat {
    if qs == [] then 0 else |qs[0]| + Total(qs[1..])
  }

  lemma {:induction false} TotalUpdate<T>(qs: seq<seq<T>>, k: nat, q: seq<T>)
    requires k < |qs|
    ensures Total(qs[k := q]) == Total(qs) - |qs[k]| + |q|
    decreases k
  {
    if k == 0 {
      assert qs[0 := q][1..] == qs[1..];
    } else {
      TotalUpdate(qs[1..], k - 1, q);
      assert qs[k := q][1..] == qs[1..][k - 1 := q];
    }
  }

  lemma {:induction false} TotalPositive<T>(qs: seq<seq<T>>)
    ensures Total(qs) > 0 <==> exists k :: 0 <= k < |qs| && qs[k] != []
  {
    if qs != [] {
      TotalPositive(qs[1..]);
      if k :| 0 <= k < |qs[1..]| && qs[1..][k] != [] {
        assert qs[k + 1] != [];
      }
      if k :| 0 <= k < |qs| && qs[k] != [] {
        assert k > 0 ==> qs[1..][k - 1] != [];
      }
    }
  }
}
