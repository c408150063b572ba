// The playing queue seen as a sequence of command indices with set semantics:
// what a linear scan finds, what insertion and removal leave behind, and why a
// queue of distinct valid indices always has room for one more.

module Queues {

  /** No index occurs twice. */
  ghost predicate Distinct(q: seq<int>)
  {
    forall i, j :: 0 <= i < j < |q| ==> q[i] != q[j]
  }

  /** Every entry indexes a table of n commands. */
  predicate ValidIndices(q: seq<int>, n: int)
  {
    forall i :: 0 <= i < |q| ==> 0 <= q[i] < n
  }

  /** What a left-to-right scan for x finds: the first position holding x,
    * or -1 when x does not occur. */
  function IndexOf(q: seq<int>, x: int): (i: int)
    ensures -1 <= i < |q|
    ensures i == -1 <==> x !in q
    ensures 0 <= i ==> q[i] == x && x !in q[..i]
  {
    if |q| == 0 then -1
    else if q[0] == x then 0
    else
      var j := IndexOf(q[1..], x);
      if j == -1 then -1
      else
        assert q[..j + 1] == [q[0]] + q[1..][..j];
        j + 1
  }

  /** The queue after inserting x: unchanged when x is present, otherwise x is
    * appended. Either way the old queue stays a prefix, x is a member, and at
    * most one entry is added. */
  function Inserted(q: seq<int>, x: int): (r: seq<int>)
    ensures |q| <= |r| <= |q| + 1 && r[..|q|] == q
    ensures x in r
    ensures x in q ==> r == q
  {
    if IndexOf(q, x) == -1 then q + [x] else q
  }

  /** The queue after removing x: unchanged when x is absent, otherwise the
    * entry holding x is cut out and the entries after it move down by one. */
  function Removed(q: seq<int>, x: int): (r: seq<int>)
    ensures |r| == if x in q then |q| - 1 else |q|
    ensures x !in q ==> r == q
  {
    var i := IndexOf(q, x);
    if i == -1 then q else q[..i] + q[i + 1..]
  }

  // ---------------------------------------------------------------------------
  // Properties of insertion and removal

  /** Insertion adds exactly x to the members, grows the queue by at most one
    * and keeps the entries distinct. */
  lemma InsertedFacts(q: seq<int>, x: int)
    requires Distinct(q)
    ensures Distinct(Inserted(q, x))
    ensures forall y :: y in Inserted(q, x) <==> y in q || y == x
    ensures |Inserted(q, x)| == if x in q then |q| else |q| + 1
  {
  }

  /** Inserting an index twice has the same effect as inserting it once. */
  lemma InsertIdempotent(q: seq<int>, x: int)
    ensures Inserted(Inserted(q, x), x) == Inserted(q, x)
  {
    assert x in Inserted(q, x);
  }

  /** Removal takes exactly x out of the members and keeps the entries
    * distinct. */
  lemma RemovedFacts(q: seq<int>, x: int)
    requires Distinct(q)
    ensures Distinct(Removed(q, x))
    ensures forall y :: y in Removed(q, x) <==> y in q && y != x
  {
    var i := IndexOf(q, x);
    if i != -1 {
      var r := q[..i] + q[i + 1..];
      forall k | 0 <= k < |r|
        ensures r[k] == q[if k < i then k else k + 1]
      {
      }
      forall y
        ensures y in r <==> y in q && y != x
      {
        if y in q && y != x {
          var k :| 0 <= k < |q| && q[k] == y;
          assert k != i;
          assert r[if k < i then k else k - 1] == y;
        }
      }
    }
  }

  /** Removal takes out exactly one occurrence of x, if any, and keeps every
    * other entry with its multiplicity. */
  lemma RemovedMultiset(q: seq<int>, x: int)
    ensures multiset(Removed(q, x)) == multiset(q) - multiset{x}
  {
    var i := IndexOf(q, x);
    if i != -1 {
      assert q == q[..i] + [q[i]] + q[i + 1..];
    }
  }

  /** Removing an index that lies after a prefix not containing it cuts out
    * that very entry. */
  lemma RemovedAfter(a: seq<int>, x: int, b: seq<int>)
    requires x !in a
    ensures Removed(a + [x] + b, x) == a + b
  {
    var q := a + [x] + b;
    var i := IndexOf(q, x);
    assert q[|a|] == x;
    assert q[..|a|] == a;
    assert q[|a| + 1..] == b;
  }

  /** Removing a freshly inserted index gives back the original queue. */
  lemma RemoveInsertRoundTrip(q: seq<int>, x: int)
    requires x !in q
    ensures Removed(Inserted(q, x), x) == q
  {
    RemovedAfter(q, x, []);
    assert q + [x] + [] == q + [x];
  }

  // ---------------------------------------------------------------------------
  // Capacity

  /** The n integers 0 .. n-1. */
  ghost function Range(n: nat): (s: set<int>)
    ensures |s| == n
    ensures forall x :: x in s <==> 0 <= x < n
  {
    if n == 0 then {} else Range(n - 1) + {n - 1}
  }

  /** A sequence of distinct members of s is no longer than s. */
  lemma {:induction false} DistinctWithin(q: seq<int>, s: set<int>)
    requires Distinct(q)
    requires forall i :: 0 <= i < |q| ==> q[i] in s
    ensures |q| <= |s|
  {
    if |q| > 0 {
      var rest := s - {q[0]};
      forall i | 0 <= i < |q[1..]|
        ensures q[1..][i] in rest
      {
        assert q[1..][i] == q[i + 1] != q[0];
      }
      DistinctWithin(q[1..], rest);
    }
  }

  /** A queue of distinct indices below n that lacks a valid index x is
    * shorter than n, so it has room for x. */
  lemma QueueCapacity(q: seq<int>, n: nat, x: int)
    requires Distinct(q) && ValidIndices(q, n)
    requires 0 <= x < n && x !in q
    ensures |q| < n
  {
    var s := Range(n) - {x};
    assert x in Range(n);
    forall i | 0 <= i < |q|
      ensures q[i] in s
    {
    }
    DistinctWithin(q, s);
  }
}
