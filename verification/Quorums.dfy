/** Counting sets of servers: servers are numbered from 0. */
module Quorums {

  function Below(n: nat): (s: set<nat>)
    ensures forall p: nat :: p in s <==> p < n
    ensures |s| == n
  {
    if n == 0 then {} else Below(n - 1) + {n - 1}
  }

  lemma {:induction false} SubsetSize(a: set<nat>, b: set<nat>)
    requires a <= b
    ensures |a| <= |b|
  {
    if a != {} {
      var x :| x in a;
      SubsetSize(a - {x}, b - {x});
    }
  }

  /** Two sets of servers overlap at least by what they exceed the cluster. */
  lemma Overlap(a: set<nat>, b: set<nat>, n: nat)
    requires a <= Below(n) && b <= Below(n)
    ensures |a * b| >= |a| + |b| - n
  {
    SubsetSize(a + b, Below(n));
    assert a == (a - b) + a * b;
    assert a + b == (a - b) + b;
  }

  ghost predicate Majority(q: set<nat>, n: nat) {
    q <= Below(n) && 2 * |q| > n
  }

  lemma Intersect(a: set<nat>, b: set<nat>, n: nat) returns (p: nat)
    requires Majority(a, n) && Majority(b, n)
    ensures p in a && p in b
  {
    Overlap(a, b, n);
    p :| p in a * b;
  }
}
