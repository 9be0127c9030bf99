/** What the middle of the sorted match indexes is: an index a majority has reached. */
module RaftMatch {
  import opened RaftServer
  import opened RaftProtocol
  import opened Quorums

  function AtLeast(s: seq<int>, x: int): nat {
    if s == [] then 0 else AtLeast(s[..|s| - 1], x) + if s[|s| - 1] >= x then 1 else 0
  }

  ghost predicate Descending(s: seq<int>) {
    forall i, j :: 0 <= i < j < |s| ==> s[i] >= s[j]
  }

  lemma {:induction false} AtLeastFirst(s: seq<int>, x: int)
    requires s != []
    ensures AtLeast(s, x) == AtLeast(s[1..], x) + if s[0] >= x then 1 else 0
  {
    if |s| > 1 {
      AtLeastFirst(s[..|s| - 1], x);
      assert s[..|s| - 1][1..] == s[1..][..|s| - 2];
    }
  }

  lemma {:induction false} InsertDescends(y: int, s: seq<int>)
    requires Descending(s)
    ensures var t := InsertDescending(y, s);
      t != [] && Descending(t) && (t[0] == y || (s != [] && y <= s[0] == t[0]))
  {
    if s != [] && y <= s[0] {
      InsertDescends(y, s[1..]);
    }
  }

  lemma {:induction false} InsertCounts(y: int, s: seq<int>, x: int)
    ensures var t := InsertDescending(y, s);
      multiset(t) == multiset(s) + multiset{y}
      && AtLeast(t, x) == AtLeast(s, x) + if y >= x then 1 else 0
  {
    var t := InsertDescending(y, s);
    AtLeastFirst(t, x);
    if s == [] || y > s[0] {
      assert t[1..] == s;
    } else {
      InsertCounts(y, s[1..], x);
      AtLeastFirst(s, x);
      assert t[1..] == InsertDescending(y, s[1..]);
      assert s == [s[0]] + s[1..];
    }
  }

  lemma {:induction false} SortDescends(s: seq<int>)
    ensures Descending(SortDescending(s)) && multiset(SortDescending(s)) == multiset(s)
  {
    if s != [] {
      var p, y := s[..|s| - 1], s[|s| - 1];
      SortDescends(p);
      InsertDescends(y, SortDescending(p));
      InsertCounts(y, SortDescending(p), 0);
      assert s == p + [y];
    }
  }

  lemma {:induction false} SortCounts(s: seq<int>, x: int)
    ensures AtLeast(SortDescending(s), x) == AtLeast(s, x)
  {
    if s != [] {
      SortCounts(s[..|s| - 1], x);
      InsertCounts(s[|s| - 1], SortDescending(s[..|s| - 1]), x);
    }
  }

  lemma {:induction false} AtLeastUpTo(s: seq<int>, k: nat, x: int)
    requires k <= |s| && forall j :: 0 <= j < k ==> s[j] >= x
    ensures AtLeast(s, x) >= k
  {
    if k < |s| {
      AtLeastUpTo(s[..|s| - 1], k, x);
    } else if k > 0 {
      AtLeastUpTo(s[..|s| - 1], k - 1, x);
    }
  }

  lemma {:induction false} MatchingCount(s: seq<int>, x: int)
    ensures |Matching(s, x)| == AtLeast(s, x)
  {
    if s != [] {
      var n := |s| - 1;
      MatchingCount(s[..n], x);
      if s[n] >= x {
        assert Matching(s, x) == Matching(s[..n], x) + {n};
      } else {
        assert Matching(s, x) == Matching(s[..n], x);
      }
    }
  }

  lemma MiddleIsMember(s: seq<int>)
    requires s != []
    ensures MiddleMatch(s) in s
  {
    SortDescendingLength(s);
    SortDescends(s);
    assert MiddleMatch(s) in multiset(SortDescending(s));
  }

  /** The servers at or past the middle match index are a majority, for odd and even clusters. */
  lemma MiddleIsMajority(s: seq<int>)
    requires s != []
    ensures Majority(Matching(s, MiddleMatch(s)), |s|)
  {
    SortDescendingLength(s);
    var m := MiddleMatch(s);
    SortDescends(s);
    SortCounts(s, m);
    AtLeastUpTo(SortDescending(s), |s| / 2 + 1, m);
    MatchingCount(s, m);
  }

  lemma {:induction false} AtLeastBefore(s: seq<int>, k: nat, x: int)
    requires k < |s| && Descending(s) && s[k] < x
    ensures AtLeast(s, x) <= k
  {
    if |s| > k + 1 {
      AtLeastBefore(s[..|s| - 1], k, x);
    } else {
      AtLeastSize(s[..k], x);
    }
  }

  lemma {:induction false} AtLeastSize(s: seq<int>, x: int)
    ensures AtLeast(s, x) <= |s|
  {
    if s != [] { AtLeastSize(s[..|s| - 1], x); }
  }

  /** The middle match index is the largest a majority has reached: an index is at or below it exactly
      when a majority is at or past the index. */
  lemma MiddleIsLargest(s: seq<int>, x: int)
    requires s != []
    ensures Majority(Matching(s, x), |s|) <==> x <= MiddleMatch(s)
  {
    SortDescendingLength(s);
    SortDescends(s);
    SortCounts(s, x);
    MatchingCount(s, x);
    var t := SortDescending(s);
    if x <= MiddleMatch(s) {
      AtLeastUpTo(t, |s| / 2 + 1, x);
    } else {
      AtLeastBefore(t, |s| / 2, x);
    }
  }

  /** Where insertion puts x: behind everything not smaller. */
  lemma {:induction false} InsertAt(x: int, s: seq<int>, i: nat)
    requires i <= |s| && (forall k :: 0 <= k < i ==> s[k] >= x) && (i < |s| ==> s[i] < x)
    ensures InsertDescending(x, s) == s[..i] + [x] + s[i..]
  {
    if i > 0 {
      InsertAt(x, s[1..], i - 1);
      assert s[..i] == [s[0]] + s[1..][..i - 1];
    }
  }
}
