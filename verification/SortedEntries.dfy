/** Turning operations into the entries the search runs on, and its answer back into a statement
    about the operations. */
module SortedEntries {
  import opened Quorums
  import opened Linearizability
  import opened Operations
  import CheckSingle

  datatype Timed<I, O> = Timed(entry: Entry<I, O>, time: int)

  function Untimed<I, O>(es: seq<Timed<I, O>>): seq<Entry<I, O>> {
    seq(|es|, i requires 0 <= i < |es| => es[i].entry)
  }

  ghost predicate ByTime<I, O>(es: seq<Timed<I, O>>) {
    forall i, j :: 0 <= i < j < |es| ==> es[i].time <= es[j].time
  }

  function CallOf<I, O>(ops: seq<Operation<I, O>>, x: nat): Timed<I, O>
    requires x < |ops|
  {
    Timed(Call(x, ops[x].input), ops[x].call)
  }

  function ReturnOf<I, O>(ops: seq<Operation<I, O>>, x: nat): Timed<I, O>
    requires x < |ops|
  {
    Timed(Return(x, ops[x].output), ops[x].ret)
  }

  /** The calls and the returns, in turn. */
  function Pairs<I, O>(ops: seq<Operation<I, O>>): seq<Timed<I, O>> {
    seq(2 * |ops|, q requires 0 <= q < 2 * |ops| => if q % 2 == 0 then CallOf(ops, q / 2) else ReturnOf(ops, q / 2))
  }

  /** es holds the calls and returns of the operations by time; how ties fall is left open. */
  ghost predicate EntriesOf<I, O>(ops: seq<Operation<I, O>>, es: seq<Timed<I, O>>) {
    ByTime(es) && multiset(es) == multiset(Pairs(ops))
  }

  lemma InsertByTime<I, O>(es: seq<Timed<I, O>>, k: nat, e: Timed<I, O>)
    requires ByTime(es) && k <= |es| && (k > 0 ==> es[k - 1].time <= e.time)
    requires forall j :: k <= j < |es| ==> e.time < es[j].time
    ensures ByTime(Insert(es, k, e))
  {
    var s := Insert(es, k, e);
    forall i, j | 0 <= i < j < |s| ensures s[i].time <= s[j].time {
      assert s[i] == if i < k then es[i] else if i == k then e else es[i - 1];
      assert s[j] == if j < k then es[j] else if j == k then e else es[j - 1];
    }
  }

  method SortByTime<I, O>(es: seq<Timed<I, O>>) returns (sorted: seq<Timed<I, O>>)
    ensures ByTime(sorted) && multiset(sorted) == multiset(es)
  {
    hide ByTime, Insert;
    sorted := [];
    assert ByTime(sorted) by { NothingSorted<I, O>(); }
    for i := 0 to |es|
      invariant ByTime(sorted) && multiset(sorted) == multiset(es[..i])
    {
      var k := |sorted|;
      while k > 0 && es[i].time < sorted[k - 1].time
        invariant 0 <= k <= |sorted|
        invariant forall j :: k <= j < |sorted| ==> es[i].time < sorted[j].time
      {
        k := k - 1;
      }
      InsertCounts(sorted, k, es[i]);
      InsertByTime(sorted, k, es[i]);
      NextCounts(es, i);
      sorted := Insert(sorted, k, es[i]);
    }
    assert es[..|es|] == es;
  }

  lemma NothingSorted<I, O>()
    ensures ByTime<I, O>([])
  {
  }

  lemma NextCounts<T>(s: seq<T>, i: nat)
    requires i < |s|
    ensures multiset(s[..i + 1]) == multiset(s[..i]) + multiset{s[i]}
  {
    assert s[..i + 1] == s[..i] + [s[i]];
  }

  method MakeEntries<I, O>(history: seq<Operation<I, O>>) returns (sorted: seq<Timed<I, O>>)
    ensures EntriesOf(history, sorted)
  {
    var entries: seq<Timed<I, O>> := [];
    for id := 0 to |history|
      invariant entries == Pairs(history)[..2 * id]
    {
      var elem := history[id];
      entries := entries + [Timed(Call(id, elem.input), elem.call)];
      entries := entries + [Timed(Return(id, elem.output), elem.ret)];
    }
    assert Pairs(history)[..2 * |history|] == Pairs(history);
    sorted := SortByTime(entries);
  }

  // ----- the entries are a well-formed history

  lemma {:induction false} DistinctCounts<T>(s: seq<T>, e: T)
    requires Distinct(s)
    ensures multiset(s)[e] <= 1
  {
    if s != [] {
      var n := |s| - 1;
      DistinctCounts(s[..n], e);
      LastCounts(s);
      if e == s[n] { assert e !in s[..n]; }
    }
  }

  lemma CountsDistinct<T>(s: seq<T>)
    requires forall i :: 0 <= i < |s| ==> multiset(s)[s[i]] <= 1
    ensures Distinct(s)
  {
    forall i: nat, j: nat | i < j < |s| ensures s[i] != s[j] {
      TakeOut(s, j);
      assert Without(s, j)[i] == s[i];
      assert s[i] in multiset(Without(s, j));
    }
  }

  lemma RearrangedDistinct<T>(s: seq<T>, t: seq<T>)
    requires multiset(s) == multiset(t) && Distinct(s)
    ensures Distinct(t) && |t| == |s|
  {
    forall i | 0 <= i < |t| ensures multiset(t)[t[i]] <= 1 { DistinctCounts(s, t[i]); }
    CountsDistinct(t);
    assert |multiset(t)| == |multiset(s)|;
  }

  /** What sorting keeps: every call and return is there once, and nothing else. */
  lemma EntriesAre<I, O>(ops: seq<Operation<I, O>>, es: seq<Timed<I, O>>)
    requires EntriesOf(ops, es)
    ensures Distinct(es) && |es| == 2 * |ops|
    ensures forall x :: 0 <= x < |ops| ==> CallOf(ops, x) in es && ReturnOf(ops, x) in es
    ensures forall p :: 0 <= p < |es| ==> var x := es[p].entry.id; x < |ops| && (es[p] == CallOf(ops, x) || es[p] == ReturnOf(ops, x))
  {
    var pairs := Pairs(ops);
    assert Distinct(pairs);
    RearrangedDistinct(pairs, es);
    forall x | 0 <= x < |ops| ensures CallOf(ops, x) in es && ReturnOf(ops, x) in es {
      assert pairs[2 * x] in multiset(es) && pairs[2 * x + 1] in multiset(es);
    }
    forall p | 0 <= p < |es| ensures var x := es[p].entry.id; x < |ops| && (es[p] == CallOf(ops, x) || es[p] == ReturnOf(ops, x)) {
      assert es[p] in multiset(pairs);
    }
  }

  /** The history the entries stand for. */
  ghost function HistoryOf<I, O>(ops: seq<Operation<I, O>>, es: seq<Timed<I, O>>): History<I, O>
    requires EntriesOf(ops, es)
  {
    EntriesAre(ops, es);
    History(Untimed(es), seq(|ops|, x requires 0 <= x < |ops| => IndexOf(es, CallOf(ops, x))),
            seq(|ops|, x requires 0 <= x < |ops| => IndexOf(es, ReturnOf(ops, x))))
  }

  /** Sorted entries of operations that take time are a well-formed history. */
  lemma HistoryValid<I, O>(ops: seq<Operation<I, O>>, es: seq<Timed<I, O>>)
    requires EntriesOf(ops, es) && Intervals(ops)
    ensures var h := HistoryOf(ops, es);
      && h.Valid() && h.Size() == |ops| && h.entries == Untimed(es)
      && (forall x :: 0 <= x < |ops| ==> h.Input(x) == ops[x].input && h.Output(x) == ops[x].output)
      && (forall x :: 0 <= x < |ops| ==> es[h.call[x]].time == ops[x].call && es[h.ret[x]].time == ops[x].ret)
  {
    var h := HistoryOf(ops, es);
    EntriesAre(ops, es);
    forall x | 0 <= x < |ops|
      ensures h.call[x] < h.ret[x] < |es| && es[h.call[x]] == CallOf(ops, x) && es[h.ret[x]] == ReturnOf(ops, x)
    {
      assert h.call[x] != h.ret[x];
      assert ops[x].call < ops[x].ret;
    }
    forall p | 0 <= p < |es|
      ensures p == if es[p].entry.Call? then h.call[es[p].entry.id] else h.ret[es[p].entry.id]
    {
      var x := es[p].entry.id;
      assert es[p] == CallOf(ops, x) || es[p] == ReturnOf(ops, x);
    }
  }

  lemma {:induction false} AcceptsRuns<S, I, O>(m: Model<S, I, O>, h: History<I, O>, ops: seq<Operation<I, O>>, st: S, order: seq<nat>)
    requires h.Valid() && h.Size() == |ops| && InRange(|ops|, order)
    requires forall x :: 0 <= x < |ops| ==> h.Input(x) == ops[x].input && h.Output(x) == ops[x].output
    ensures Accepts(m, h, st, order) <==> Runs(m, st, Pick(ops, order))
    decreases |order|
  {
    if order != [] {
      AcceptsRuns(m, h, ops, Step(m, h, st, order[0]).1, order[1..]);
      assert Pick(ops, order)[1..] == Pick(ops, order[1..]);
    }
  }

  /** A linearization of the entries explains the operations in time. */
  lemma CompletesExplains<S, I, O>(m: Model<S, I, O>, ops: seq<Operation<I, O>>, es: seq<Timed<I, O>>, order: seq<nat>)
    requires EntriesOf(ops, es) && Intervals(ops)
    requires HistoryOf(ops, es).Valid() && Completes(m, HistoryOf(ops, es), {}, m.init, order)
    ensures InRange(|ops|, order) && Explains(m, ops, Pick(ops, order)) && Timely(Pick(ops, order))
  {
    hide HistoryOf, History.Valid, EntriesOf;
    var h := HistoryOf(ops, es);
    HistoryValid(ops, es);
    assert Ids(order) == Below(|ops|);
    PickAll(ops, order);
    AcceptsRuns(m, h, ops, m.init, order);
    forall i, j | 0 <= i < j < |order| ensures ops[order[i]].call <= ops[order[j]].ret {
      TimesInOrder(ops, es, order[i], order[j]);
    }
  }

  lemma TimesInOrder<I, O>(ops: seq<Operation<I, O>>, es: seq<Timed<I, O>>, x: nat, y: nat)
    requires EntriesOf(ops, es) && Intervals(ops) && x < |ops| && y < |ops| && HistoryOf(ops, es).Valid()
    requires HistoryOf(ops, es).Size() == |ops|
    ensures var h := HistoryOf(ops, es); h.call[x] < h.ret[y] ==> ops[x].call <= ops[y].ret
    ensures var h := HistoryOf(ops, es); ops[x].call < ops[y].ret ==> h.call[x] < h.ret[y]
  {
    hide HistoryOf;
    HistoryValid(ops, es);
    var h := HistoryOf(ops, es);
    assert es[h.call[x]].time == ops[x].call && es[h.ret[y]].time == ops[y].ret;
    assert h.entries[h.call[x]].Call? && h.entries[h.ret[y]].Return?;
  }

  /** An explanation that resolves ties as later is found by the search. */
  lemma ExplainsCompletes<S, I, O>(m: Model<S, I, O>, ops: seq<Operation<I, O>>, es: seq<Timed<I, O>>, l: seq<Operation<I, O>>)
    requires EntriesOf(ops, es) && Intervals(ops) && HistoryOf(ops, es).Valid()
    requires Explains(m, ops, l) && TimelyTies(l)
    ensures Linearizable(m, HistoryOf(ops, es))
  {
    hide HistoryOf, History.Valid, EntriesOf, Below, Accepts, Runs;
    var h := HistoryOf(ops, es);
    HistoryValid(ops, es);
    var order := IndicesOf(ops, l);
    AcceptsRuns(m, h, ops, m.init, order);
    forall i, j | 0 <= i < j < |order| ensures h.call[order[i]] < h.ret[order[j]] {
      assert l[i] == ops[order[i]] && l[j] == ops[order[j]];
      TimesInOrder(ops, es, order[i], order[j]);
    }
    assert Below(h.Size()) - {} == Below(|ops|);
    assert Completes(m, h, {}, m.init, order);
  }

  /** Checks one history. The answer is exact for the order the sort gave to what happened at one time;
      so yes means linearizable, an explanation that takes a tied call for the later is always found,
      and with no ties the answer is exact for the operations. */
  method CheckHistory<S(!new), I(!new), O(!new)>(m: Model<S, I, O>, history: seq<Operation<I, O>>)
    returns (ok: bool, ghost es: seq<Timed<I, O>>)
    requires Congruent(m) && Intervals(history)
    ensures EntriesOf(history, es) && HistoryOf(history, es).Valid() && (ok <==> Linearizable(m, HistoryOf(history, es)))
    ensures ok ==> IsLinearizable(m, history)
    ensures IsLinearizableTies(m, history) ==> ok
    ensures NoTies(history) ==> (ok <==> IsLinearizable(m, history))
  {
    hide Congruent, EntriesOf, HistoryOf, History.Valid, Explains, Completes, Intervals, Linearizable;
    var sorted := MakeEntries(history);
    es := sorted;
    HistoryValid(history, es);
    ghost var h := HistoryOf(history, es);
    var order;
    ok, order := CheckSingle.Run(m, Untimed(sorted), h);
    if ok {
      CompletesExplains(m, history, es, order);
      assert Explains(m, history, Pick(history, order)) && Timely(Pick(history, order));
    }
    if l :| Explains(m, history, l) && TimelyTies(l) {
      ExplainsCompletes(m, history, es, l);
    }
    if NoTies(history) {
      if l :| Explains(m, history, l) && Timely(l) {
        TimelyWithoutTies(m, history, l);
      }
    }
  }

  lemma TimelyWithoutTies<S, I, O>(m: Model<S, I, O>, ops: seq<Operation<I, O>>, l: seq<Operation<I, O>>)
    requires Explains(m, ops, l) && Timely(l) && NoTies(ops)
    ensures TimelyTies(l)
  {
    forall i, j | 0 <= i < j < |l| ensures l[i].call < l[j].ret {
      assert l[i] in multiset(ops) && l[j] in multiset(ops);
    }
  }
}
