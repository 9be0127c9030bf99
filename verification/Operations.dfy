/** Histories as the clients record them: operations with a call time and a return time. They are
    turned into sorted entries for the search; this module says what its answer then means. */
module Operations {
  import opened Quorums
  import opened Linearizability

  datatype Operation<I, O> = Operation(clientId: int, input: I, call: int, output: O, ret: int)

  /** The operations happen one after another, legally, from state st. */
  ghost predicate Runs<S, I, O>(m: Model<S, I, O>, st: S, l: seq<Operation<I, O>>) {
    l == [] || (m.step(st, l[0].input, l[0].output).0 && Runs(m, m.step(st, l[0].input, l[0].output).1, l[1..]))
  }

  /** No operation stands before one that had returned at an earlier time than it was called. */
  ghost predicate Timely<I, O>(l: seq<Operation<I, O>>) {
    forall i, j :: 0 <= i < j < |l| ==> l[i].call <= l[j].ret
  }

  /** The same, an operation called at the very time another returns counting as later. */
  ghost predicate TimelyTies<I, O>(l: seq<Operation<I, O>>) {
    forall i, j :: 0 <= i < j < |l| ==> l[i].call < l[j].ret
  }

  /** l is a sequential explanation of the operations. */
  ghost predicate Explains<S, I, O>(m: Model<S, I, O>, ops: seq<Operation<I, O>>, l: seq<Operation<I, O>>) {
    multiset(l) == multiset(ops) && Runs(m, m.init, l)
  }

  ghost predicate IsLinearizable<S, I(!new), O(!new)>(m: Model<S, I, O>, ops: seq<Operation<I, O>>) {
    exists l :: Explains(m, ops, l) && Timely(l)
  }

  ghost predicate IsLinearizableTies<S, I(!new), O(!new)>(m: Model<S, I, O>, ops: seq<Operation<I, O>>) {
    exists l :: Explains(m, ops, l) && TimelyTies(l)
  }

  /** Every operation takes time. */
  ghost predicate Intervals<I, O>(ops: seq<Operation<I, O>>) {
    forall x :: 0 <= x < |ops| ==> ops[x].call < ops[x].ret
  }

  /** No operation is called at the very time another returns. */
  ghost predicate NoTies<I, O>(ops: seq<Operation<I, O>>) {
    forall x, y :: 0 <= x < |ops| && 0 <= y < |ops| ==> ops[x].call != ops[y].ret
  }

  // ----- permutations

  ghost function Pick<T>(s: seq<T>, order: seq<nat>): seq<T>
    requires InRange(|s|, order)
  {
    seq(|order|, i requires 0 <= i < |order| => s[order[i]])
  }

  function Without<T>(s: seq<T>, j: nat): seq<T>
    requires j < |s|
  {
    s[..j] + s[j + 1..]
  }

  function Insert<T>(s: seq<T>, j: nat, y: T): seq<T>
    requires j <= |s|
  {
    s[..j] + [y] + s[j..]
  }

  lemma TakeOut<T>(s: seq<T>, j: nat)
    requires j < |s|
    ensures multiset(s) == multiset(Without(s, j)) + multiset{s[j]}
    ensures |Without(s, j)| == |s| - 1 && s == Insert(Without(s, j), j, s[j])
  {
    assert s == s[..j] + [s[j]] + s[j + 1..];
  }

  lemma InsertIds(o: seq<nat>, j: nat, n: nat)
    requires j <= |o| && InRange(n, o) && Distinct(o) && Ids(o) == Below(n)
    ensures var order := Insert<nat>(o, j, n); InRange(n + 1, order) && Distinct(order) && Ids(order) == Below(n + 1)
  {
    hide Below;
    var order := Insert<nat>(o, j, n);
    assert forall k :: 0 <= k < |order| ==> order[k] == if k < j then o[k] else if k == j then n else o[k - 1];
    forall x: nat | x < n + 1 ensures x in order {
      if x < n {
        assert x in Ids(o);
        assert x in o[..j] + o[j..] by { assert o == o[..j] + o[j..]; }
      }
    }
  }

  lemma InsertPick<T>(s: seq<T>, o: seq<nat>, j: nat, n: nat)
    requires j <= |o| && |s| == n + 1 && InRange(n, o)
    ensures InRange(n + 1, Insert(o, j, n)) && Pick(s, Insert(o, j, n)) == Insert(Pick(s[..n], o), j, s[n])
  {
    var order := Insert<nat>(o, j, n);
    assert forall k :: 0 <= k < |order| ==> order[k] == if k < j then o[k] else if k == j then n else o[k - 1];
  }

  lemma FindLast<T>(s: seq<T>, l: seq<T>) returns (j: nat)
    requires multiset(l) == multiset(s) && s != []
    ensures var n := |s| - 1;
      j < |l| && |l| == n + 1 && |Without(l, j)| == n && l[j] == s[n] && multiset(Without(l, j)) == multiset(s[..n]) && l == Insert(Without(l, j), j, s[n])
  {
    hide Without, Insert;
    var n := |s| - 1;
    assert s == s[..n] + [s[n]];
    assert |multiset(l)| == |multiset(s)|;
    assert s[n] in multiset(l);
    j :| 0 <= j < |l| && l[j] == s[n];
    TakeOut(l, j);
    assert multiset(s[..n]) == multiset(s) - multiset{s[n]};
    assert multiset(Without(l, j)) == multiset(l) - multiset{s[n]};
  }

  /** A rearrangement picks every index once. */
  lemma {:induction false} IndicesOf<T>(s: seq<T>, l: seq<T>) returns (order: seq<nat>)
    requires multiset(l) == multiset(s)
    ensures InRange(|s|, order) && Distinct(order) && Ids(order) == Below(|s|) && Pick(s, order) == l
  {
    hide Without, Insert, Pick, Ids, Distinct;
    if s == [] {
      assert |multiset(l)| == 0;
      order := [];
      NothingPicked(s);
    } else {
      var n := |s| - 1;
      var j := FindLast(s, l);
      var o := IndicesOf(s[..n], Without(l, j));
      PickSize(s[..n], o);
      order := Insert<nat>(o, j, n);
      InsertIds(o, j, n);
      InsertPick(s, o, j, n);
    }
  }

  lemma NothingPicked<T>(s: seq<T>)
    requires s == []
    ensures InRange(0, []) && Distinct<nat>([]) && Ids([]) == Below(0) && Pick(s, []) == []
  {
  }

  lemma PickSize<T>(s: seq<T>, order: seq<nat>)
    requires InRange(|s|, order)
    ensures |Pick(s, order)| == |order|
  {
  }

  /** Picking every index once rearranges. */
  lemma {:induction false} PickAll<T>(s: seq<T>, order: seq<nat>)
    requires InRange(|s|, order) && Distinct(order) && Ids(order) == Below(|s|)
    ensures multiset(Pick(s, order)) == multiset(s)
  {
    if s == [] {
      IdsSize(order);
    } else {
      hide Without, Insert, Pick, Distinct, Below, Ids;
      var n := |s| - 1;
      var j := FindId(order, n);
      var o := Without(order, j);
      TakeOut(order, j);
      WithoutIds(order, j, n);
      InsertPick(s, o, j, n);
      PickAll(s[..n], o);
      PickSize(s[..n], o);
      InsertCounts(Pick(s[..n], o), j, s[n]);
      LastCounts(s);
    }
  }

  lemma FindId(order: seq<nat>, n: nat) returns (j: nat)
    requires Ids(order) == Below(n + 1)
    ensures j < |order| && order[j] == n
  {
    assert n in Ids(order);
    j :| 0 <= j < |order| && order[j] == n;
  }

  lemma LastCounts<T>(s: seq<T>)
    requires s != []
    ensures multiset(s) == multiset(s[..|s| - 1]) + multiset{s[|s| - 1]}
  {
    assert s == s[..|s| - 1] + [s[|s| - 1]];
  }

  lemma InsertCounts<T>(s: seq<T>, j: nat, y: T)
    requires j <= |s|
    ensures multiset(Insert(s, j, y)) == multiset(s) + multiset{y}
  {
    assert s == s[..j] + s[j..];
  }

  lemma WithoutIds(order: seq<nat>, j: nat, n: nat)
    requires InRange(n + 1, order) && Distinct(order) && Ids(order) == Below(n + 1) && j < |order| && order[j] == n
    ensures var o := Without(order, j); InRange(n, o) && Distinct(o) && Ids(o) == Below(n)
  {
    hide Below;
    var o := Without(order, j);
    assert forall k :: 0 <= k < |o| ==> o[k] == order[if k < j then k else k + 1];
    forall x: nat | x < n ensures x in o {
      assert x in Ids(order);
      var k :| 0 <= k < |order| && order[k] == x;
      assert o[if k < j then k else k - 1] == x;
    }
  }
}
