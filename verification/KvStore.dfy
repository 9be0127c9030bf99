/** The key-value model checked one key at a time, against one store holding all keys. */
module KvStore {
  import opened Linearizability
  import opened Operations
  import opened SortedEntries

  type Uint8 = x: nat | x < 256

  datatype KvInput = KvInput(op: Uint8, key: string, value: string)
  datatype KvOutput = KvOutput(value: string)

  type KvOperation = Operation<KvInput, KvOutput>

  // ----- the model of a single key

  function KvStep(st: string, inp: KvInput, out: KvOutput): (bool, string) {
    if inp.op == 0 then (out.value == st, st)
    else if inp.op == 1 then (true, inp.value)
    else (true, st + inp.value)
  }

  function KvModel(): Model<string, KvInput, KvOutput> {
    Model("", KvStep, (a, b) => a == b)
  }

  lemma KvCongruent()
    ensures Congruent(KvModel())
  {
  }

  // ----- a store of all keys

  type Store = map<string, string>

  function Get(s: Store, key: string): string {
    if key in s then s[key] else ""
  }

  function StoreStep(s: Store, inp: KvInput, out: KvOutput): (bool, Store) {
    if inp.op == 0 then (out.value == Get(s, inp.key), s)
    else if inp.op == 1 then (true, s[inp.key := inp.value])
    else (true, s[inp.key := Get(s, inp.key) + inp.value])
  }

  function StoreModel(): Model<Store, KvInput, KvOutput> {
    Model(map[], StoreStep, (a, b) => a == b)
  }

  /** The operations on one key, in order. */
  function OnKey(l: seq<KvOperation>, key: string): seq<KvOperation> {
    if l == [] then []
    else (if l[0].input.key == key then [l[0]] else []) + OnKey(l[1..], key)
  }

  // ----- one run of the store is one run of every key

  lemma KvRuns(st: string, l: seq<KvOperation>)
    ensures Runs(KvModel(), st, l) <==>
      (l == [] || (KvStep(st, l[0].input, l[0].output).0 && Runs(KvModel(), KvStep(st, l[0].input, l[0].output).1, l[1..])))
  {
    if l != [] { assert KvModel().step(st, l[0].input, l[0].output) == KvStep(st, l[0].input, l[0].output); }
  }

  lemma StoreRuns(s: Store, l: seq<KvOperation>)
    ensures Runs(StoreModel(), s, l) <==>
      (l == [] || (StoreStep(s, l[0].input, l[0].output).0 && Runs(StoreModel(), StoreStep(s, l[0].input, l[0].output).1, l[1..])))
  {
    if l != [] { assert StoreModel().step(s, l[0].input, l[0].output) == StoreStep(s, l[0].input, l[0].output); }
  }

  /** One operation on the store is one on its key and none on the others. */
  lemma OneStep(s: Store, l: seq<KvOperation>, key: string)
    requires l != []
    ensures var op, s' := l[0], StoreStep(s, l[0].input, l[0].output);
      if op.input.key == key then KvStep(Get(s, key), op.input, op.output) == (s'.0, Get(s'.1, key)) && OnKey(l, key) == [op] + OnKey(l[1..], key)
      else Get(s'.1, key) == Get(s, key) && OnKey(l, key) == OnKey(l[1..], key)
  {
  }

  /** The store accepts a run exactly when every key accepts its part of it. */
  lemma {:induction false} StoreIsItsKeys(s: Store, l: seq<KvOperation>)
    ensures Runs(StoreModel(), s, l) <==> forall key :: Runs(KvModel(), Get(s, key), OnKey(l, key))
    decreases |l|
  {
    hide Runs, KvModel, StoreModel, OnKey, KvStep, StoreStep, Get;
    StoreRuns(s, l);
    if l == [] {
      forall key ensures Runs(KvModel(), Get(s, key), OnKey(l, key)) { NoneOnKey(key); KvRuns(Get(s, key), []); }
    } else {
      var s', key0 := StoreStep(s, l[0].input, l[0].output), l[0].input.key;
      StoreIsItsKeys(s'.1, l[1..]);
      forall key
        ensures Runs(KvModel(), Get(s, key), OnKey(l, key)) <==>
          (key == key0 ==> s'.0) && Runs(KvModel(), Get(s'.1, key), OnKey(l[1..], key))
      {
        OneStep(s, l, key);
        KvRuns(Get(s, key), OnKey(l, key));
        if key == key0 { assert OnKey(l, key)[1..] == OnKey(l[1..], key); }
      }
      assert Runs(KvModel(), Get(s, key0), OnKey(l, key0)) ==> s'.0;
    }
  }

  lemma NoneOnKey(key: string)
    ensures OnKey([], key) == []
  {
  }

  // ----- what one key's model means

  predicate IsGet(op: KvOperation) { op.input.op == 0 }

  predicate IsPut(op: KvOperation) { op.input.op == 1 }

  /** The values appended from operation `from` on, one behind the other. */
  function Appended(l: seq<KvOperation>, from: nat): string
    decreases |l|
  {
    if from >= |l| then ""
    else
      var last := l[|l| - 1];
      Appended(l[..|l| - 1], from) + if IsGet(last) || IsPut(last) then "" else last.input.value
  }

  ghost predicate NoPut(l: seq<KvOperation>, from: nat) {
    forall i :: from <= i < |l| ==> !IsPut(l[i])
  }

  /** Operation p is the last put. */
  ghost predicate LastPut(l: seq<KvOperation>, p: nat) {
    p < |l| && IsPut(l[p]) && NoPut(l, p + 1)
  }

  /** The operations leave the key with this value: what was last put, or nothing, and what was appended since. */
  ghost predicate Leaves(l: seq<KvOperation>, value: string) {
    || (NoPut(l, 0) && value == Appended(l, 0))
    || exists p: nat :: LastPut(l, p) && value == l[p].input.value + Appended(l, p + 1)
  }

  lemma LeavesOne(l: seq<KvOperation>, v: string, w: string)
    requires Leaves(l, v) && Leaves(l, w)
    ensures v == w
  {
    hide Appended;
  }

  lemma AppendedNext(l: seq<KvOperation>, op: KvOperation, from: nat)
    requires from <= |l|
    ensures Appended(l + [op], from) == Appended(l, from) + if IsGet(op) || IsPut(op) then "" else op.input.value
  {
    assert (l + [op])[..|l|] == l;
  }

  lemma LeavesNext(l: seq<KvOperation>, v: string, op: KvOperation)
    requires Leaves(l, v)
    ensures Leaves(l + [op], KvStep(v, op.input, op.output).1)
  {
    hide Appended;
    var m := l + [op];
    if IsPut(op) {
      assert LastPut(m, |l|);
      NothingAppended(m);
    } else if NoPut(l, 0) && v == Appended(l, 0) {
      AppendedNext(l, op, 0);
      assert NoPut(m, 0);
    } else {
      var p: nat :| LastPut(l, p) && v == l[p].input.value + Appended(l, p + 1);
      AppendedNext(l, op, p + 1);
      assert LastPut(m, p) && m[p] == l[p];
    }
  }

  lemma NothingAppended(l: seq<KvOperation>)
    ensures Appended(l, |l|) == ""
  {
  }

  /** A run of operations on one key is legal exactly when every get returns what the operations before it
      leave. */
  lemma GetsReturnWritten(l: seq<KvOperation>)
    ensures Runs(KvModel(), "", l) <==> forall i :: 0 <= i < |l| && IsGet(l[i]) ==> Leaves(l[..i], l[i].output.value)
  {
    assert Leaves([], "");
    GetsFrom([], "", l);
    assert [] + l == l;
  }

  ghost predicate GetsRight(l: seq<KvOperation>, from: nat) {
    forall i :: from <= i < |l| && IsGet(l[i]) ==> Leaves(l[..i], l[i].output.value)
  }

  lemma {:induction false} GetsFrom(done: seq<KvOperation>, v: string, rest: seq<KvOperation>)
    requires Leaves(done, v)
    ensures Runs(KvModel(), v, rest) <==> GetsRight(done + rest, |done|)
    decreases |rest|
  {
    hide Leaves, Runs, KvModel;
    KvRuns(v, rest);
    if rest != [] {
      var op := rest[0];
      LeavesNext(done, v, op);
      GetsFrom(done + [op], KvStep(v, op.input, op.output).1, rest[1..]);
      assert (done + [op]) + rest[1..] == done + rest;
      assert (done + rest)[..|done|] == done;
      if IsGet(op) && Leaves(done, op.output.value) { LeavesOne(done, v, op.output.value); }
    }
  }

  // ----- real-time order: merging per-key orders

  /** Operations of a and b, each in its own order. */
  ghost predicate Merges(l: seq<KvOperation>, a: seq<KvOperation>, b: seq<KvOperation>)
    decreases |l|
  {
    if l == [] then a == [] && b == []
    else (a != [] && l[0] == a[0] && Merges(l[1..], a[1..], b)) || (b != [] && l[0] == b[0] && Merges(l[1..], a, b[1..]))
  }

  ghost predicate Lasts(ops: seq<KvOperation>) {
    forall i :: 0 <= i < |ops| ==> ops[i].call <= ops[i].ret
  }

  /** Nothing in l had returned before op was called. */
  ghost predicate CanPrecede(op: KvOperation, l: seq<KvOperation>) {
    forall i :: 0 <= i < |l| ==> op.call <= l[i].ret
  }

  lemma PutFirst(op: KvOperation, rest: seq<KvOperation>)
    requires CanPrecede(op, rest) && Timely(rest)
    ensures Timely([op] + rest)
  {
  }

  /** If the first of a must wait for something in b, the first of b need not wait for anything in a. */
  lemma OtherFirst(a: seq<KvOperation>, b: seq<KvOperation>)
    requires Timely(a) && Timely(b) && Lasts(a) && Lasts(b) && b != [] && (a != [] ==> !CanPrecede(a[0], b))
    ensures CanPrecede(b[0], a)
  {
    if a != [] {
      var i :| 0 <= i < |b| && b[i].ret < a[0].call;
      assert b[0].call <= b[i].ret;
      forall j | 0 <= j < |a| ensures b[0].call <= a[j].ret { assert a[0].call <= a[j].ret; }
    }
  }

  /** Two orders that each respect real time can be merged into one that does. */
  lemma {:induction false} MergeTimely(a: seq<KvOperation>, b: seq<KvOperation>) returns (l: seq<KvOperation>)
    requires Timely(a) && Timely(b) && Lasts(a) && Lasts(b)
    ensures Merges(l, a, b) && Timely(l) && Lasts(l)
    ensures forall op :: CanPrecede(op, a) && CanPrecede(op, b) ==> CanPrecede(op, l)
    decreases |a| + |b|
  {
    if a == [] && b == [] {
      l := [];
    } else if a != [] && CanPrecede(a[0], b) {
      var rest := MergeTimely(a[1..], b);
      assert CanPrecede(a[0], a[1..]);
      PutFirst(a[0], rest);
      l := [a[0]] + rest;
      assert l[1..] == rest;
    } else {
      var rest := MergeTimely(a, b[1..]);
      assert CanPrecede(b[0], b[1..]);
      OtherFirst(a, b);
      PutFirst(b[0], rest);
      l := [b[0]] + rest;
      assert l[1..] == rest;
    }
  }

  lemma OnKeyStep(l: seq<KvOperation>, key: string)
    requires l != []
    ensures OnKey(l, key) == (if l[0].input.key == key then [l[0]] else []) + OnKey(l[1..], key)
  {
  }

  lemma {:induction false} MergesOnKey(l: seq<KvOperation>, a: seq<KvOperation>, b: seq<KvOperation>, key: string)
    requires Merges(l, a, b)
    ensures OnKey(a, key) == [] ==> OnKey(l, key) == OnKey(b, key)
    ensures OnKey(b, key) == [] ==> OnKey(l, key) == OnKey(a, key)
    decreases |l|
  {
    hide OnKey;
    if l != [] {
      OnKeyStep(l, key);
      if a != [] && l[0] == a[0] && Merges(l[1..], a[1..], b) {
        OnKeyStep(a, key);
        MergesOnKey(l[1..], a[1..], b, key);
      } else {
        OnKeyStep(b, key);
        MergesOnKey(l[1..], a, b[1..], key);
      }
    }
  }

  // ----- the parts of a history

  lemma {:induction false} OnKeyCounts(l: seq<KvOperation>, key: string, op: KvOperation)
    ensures multiset(OnKey(l, key))[op] == if op.input.key == key then multiset(l)[op] else 0
  {
    if l != [] {
      OnKeyCounts(l[1..], key, op);
      assert l == [l[0]] + l[1..];
    }
  }

  lemma {:induction false} OnKeyTimely(l: seq<KvOperation>, key: string)
    requires Timely(l)
    ensures Timely(OnKey(l, key))
    ensures forall op :: CanPrecede(op, l) ==> CanPrecede(op, OnKey(l, key))
  {
    if l != [] {
      OnKeyTimely(l[1..], key);
      assert CanPrecede(l[0], l[1..]);
      PutFirst(l[0], OnKey(l[1..], key));
      forall op | CanPrecede(op, l) ensures CanPrecede(op, OnKey(l, key)) {
        assert op.call <= l[0].ret && CanPrecede(op, l[1..]);
      }
    }
  }

  lemma {:induction false} OnKeyTies(l: seq<KvOperation>, key: string)
    requires TimelyTies(l)
    ensures TimelyTies(OnKey(l, key))
  {
    if l != [] {
      OnKeyTies(l[1..], key);
      var rest := OnKey(l[1..], key);
      forall i | 0 <= i < |rest| ensures l[0].call < rest[i].ret {
        OnKeyCounts(l[1..], key, rest[i]);
        assert rest[i] in multiset(rest);
        assert rest[i] in multiset(l[1..]);
      }
    }
  }

  lemma {:induction false} OnlyKey(l: seq<KvOperation>, key: string, other: string)
    requires forall op :: op in l ==> op.input.key == key
    ensures OnKey(l, other) == if key == other then l else []
  {
    if l != [] { OnlyKey(l[1..], key, other); }
  }

  /** The same operations, key by key, are the same operations. */
  lemma SameByKey(l: seq<KvOperation>, ops: seq<KvOperation>)
    requires forall key :: multiset(OnKey(l, key)) == multiset(OnKey(ops, key))
    ensures multiset(l) == multiset(ops)
  {
    forall op ensures multiset(l)[op] == multiset(ops)[op] {
      OnKeyCounts(l, op.input.key, op);
      OnKeyCounts(ops, op.input.key, op);
    }
  }

  lemma PartsOf(l: seq<KvOperation>, ops: seq<KvOperation>, key: string)
    requires multiset(l) == multiset(ops)
    ensures multiset(OnKey(l, key)) == multiset(OnKey(ops, key))
  {
    forall op ensures multiset(OnKey(l, key))[op] == multiset(OnKey(ops, key))[op] {
      OnKeyCounts(l, key, op);
      OnKeyCounts(ops, key, op);
    }
  }

  /** An explanation of one key's part holds only operations on that key. */
  lemma PartExplained(ops: seq<KvOperation>, key: string, b: seq<KvOperation>)
    requires multiset(b) == multiset(OnKey(ops, key)) && Lasts(ops)
    ensures Lasts(b) && forall other :: OnKey(b, other) == if key == other then b else []
  {
    forall i | 0 <= i < |b| ensures b[i].input.key == key && b[i] in ops {
      assert b[i] in multiset(OnKey(ops, key));
      OnKeyCounts(ops, key, b[i]);
      assert b[i] in multiset(ops);
    }
    forall other ensures OnKey(b, other) == if key == other then b else [] { OnlyKey(b, key, other); }
  }

  // ----- locality

  /** The keys explained so far have been merged. */
  ghost predicate Merged(ops: seq<KvOperation>, keys: seq<string>, l: seq<KvOperation>) {
    && Timely(l) && Lasts(l)
    && forall key :: if key in keys then Explains(KvModel(), OnKey(ops, key), OnKey(l, key)) else OnKey(l, key) == []
  }

  lemma {:induction false} MergeKeys(ops: seq<KvOperation>, keys: seq<string>) returns (l: seq<KvOperation>)
    requires Lasts(ops) && Distinct(keys)
    requires forall key :: key in keys ==> IsLinearizable(KvModel(), OnKey(ops, key))
    ensures Merged(ops, keys, l)
  {
    hide OnKey, KvModel, Runs;
    if keys == [] {
      l := [];
      forall key ensures OnKey(l, key) == [] { NoneOnKey(key); }
    } else {
      var n := |keys| - 1;
      var a := MergeKeys(ops, keys[..n]);
      assert IsLinearizable(KvModel(), OnKey(ops, keys[n]));
      var b :| Explains(KvModel(), OnKey(ops, keys[n]), b) && Timely(b);
      PartExplained(ops, keys[n], b);
      l := MergeTimely(a, b);
      forall key
        ensures if key in keys then Explains(KvModel(), OnKey(ops, key), OnKey(l, key)) else OnKey(l, key) == []
      {
        MergesOnKey(l, a, b, key);
        assert keys == keys[..n] + [keys[n]];
        assert key in keys <==> key in keys[..n] || key == keys[n];
      }
    }
  }

  function KeysOf(ops: seq<KvOperation>): set<string> {
    set op | op in ops :: op.input.key
  }

  lemma OtherKeys(ops: seq<KvOperation>, key: string)
    ensures key !in KeysOf(ops) <==> OnKey(ops, key) == []
    decreases |ops|
  {
    if ops != [] {
      OtherKeys(ops[1..], key);
      assert KeysOf(ops) == KeysOf(ops[1..]) + {ops[0].input.key};
    }
  }

  /** A history is linearizable against the whole store exactly when the part on every key is
      linearizable against the model of one key. */
  lemma Locality(ops: seq<KvOperation>)
    requires Lasts(ops)
    ensures IsLinearizable(StoreModel(), ops) <==> forall key :: key in KeysOf(ops) ==> IsLinearizable(KvModel(), OnKey(ops, key))
  {
    hide OnKey, KvModel, StoreModel, Runs, KeysOf;
    if l :| Explains(StoreModel(), ops, l) && Timely(l) {
      forall key | key in KeysOf(ops) ensures IsLinearizable(KvModel(), OnKey(ops, key)) {
        StoreToKey(ops, l, key);
      }
    }
    if forall key :: key in KeysOf(ops) ==> IsLinearizable(KvModel(), OnKey(ops, key)) {
      var keys := Listed(KeysOf(ops));
      var l := MergeKeys(ops, keys);
      KeysToStore(ops, keys, l);
    }
  }

  lemma StoreToKey(ops: seq<KvOperation>, l: seq<KvOperation>, key: string)
    requires Explains(StoreModel(), ops, l) && Timely(l)
    ensures IsLinearizable(KvModel(), OnKey(ops, key))
  {
    hide OnKey, Runs;
    StoreIsItsKeys(map[], l);
    assert Runs(KvModel(), Get(map[], key), OnKey(l, key));
    PartsOf(l, ops, key);
    OnKeyTimely(l, key);
    assert Explains(KvModel(), OnKey(ops, key), OnKey(l, key));
  }

  /** With tied calls taken for the later, too, what explains the store explains every key. */
  lemma TiesOnKey(ops: seq<KvOperation>, key: string)
    requires IsLinearizableTies(StoreModel(), ops)
    ensures IsLinearizableTies(KvModel(), OnKey(ops, key))
  {
    hide OnKey, Runs;
    var l :| Explains(StoreModel(), ops, l) && TimelyTies(l);
    StoreIsItsKeys(map[], l);
    assert Runs(KvModel(), Get(map[], key), OnKey(l, key));
    PartsOf(l, ops, key);
    OnKeyTies(l, key);
    assert Explains(KvModel(), OnKey(ops, key), OnKey(l, key));
  }

  lemma KeysToStore(ops: seq<KvOperation>, keys: seq<string>, l: seq<KvOperation>)
    requires Merged(ops, keys, l) && forall key :: key in keys <==> key in KeysOf(ops)
    ensures Explains(StoreModel(), ops, l) && Timely(l)
  {
    hide OnKey, Runs, KeysOf;
    forall key ensures multiset(OnKey(l, key)) == multiset(OnKey(ops, key)) && Runs(KvModel(), Get(map[], key), OnKey(l, key)) {
      if key !in keys {
        OtherKeys(ops, key);
        KvRuns("", []);
      }
    }
    SameByKey(l, ops);
    StoreIsItsKeys(map[], l);
  }

  lemma {:induction false} Listed(keys: set<string>) returns (s: seq<string>)
    ensures Distinct(s) && forall key :: key in s <==> key in keys
  {
    if keys == {} {
      s := [];
    } else {
      var key :| key in keys;
      var rest := Listed(keys - {key});
      s := [key] + rest;
    }
  }

  // ----- the partition and the whole check

  lemma {:induction false} OnKeyAppend(l: seq<KvOperation>, op: KvOperation, key: string)
    ensures OnKey(l + [op], key) == OnKey(l, key) + if op.input.key == key then [op] else []
  {
    if l == [] {
      assert l + [op] == [op];
    } else {
      OnKeyAppend(l[1..], op, key);
      assert (l + [op])[1..] == l[1..] + [op];
    }
  }

  /** Splits a history into its parts, one for every key that occurs; the order of the parts is
      left open. */
  method Partition(history: seq<KvOperation>) returns (ret: seq<seq<KvOperation>>, keys: seq<string>)
    ensures Distinct(keys) && |ret| == |keys| && forall key :: key in keys <==> key in KeysOf(history)
    ensures forall i :: 0 <= i < |ret| ==> ret[i] == OnKey(history, keys[i])
  {
    hide OnKey;
    var m: map<string, seq<KvOperation>> := map[];
    for i := 0 to |history|
      invariant forall key :: key in m <==> key in KeysOf(history[..i])
      invariant forall key :: key in m ==> m[key] == OnKey(history[..i], key)
    {
      var v := history[i];
      var key := v.input.key;
      forall k ensures OnKey(history[..i + 1], k) == OnKey(history[..i], k) + if key == k then [v] else [] {
        assert history[..i + 1] == history[..i] + [v];
        OnKeyAppend(history[..i], v, k);
      }
      OtherKeys(history[..i], key);
      assert KeysOf(history[..i + 1]) == KeysOf(history[..i]) + {key} by { assert history[..i + 1] == history[..i] + [v]; }
      m := m[key := (if key in m then m[key] else []) + [v]];
    }
    assert history[..|history|] == history;
    keys, ret := [], [];
    var left := m.Keys;
    while left != {}
      invariant left <= m.Keys && Distinct(keys) && |ret| == |keys|
      invariant forall key :: key in keys <==> key in m.Keys - left
      invariant forall i :: 0 <= i < |ret| ==> ret[i] == OnKey(history, keys[i])
      decreases |left|
    {
      var key :| key in left;
      assert key !in keys;
      keys, ret, left := keys + [key], ret + [m[key]], left - {key};
    }
  }

  lemma PartKeepsTimes(history: seq<KvOperation>, key: string)
    ensures Intervals(history) ==> Intervals(OnKey(history, key))
    ensures NoTies(history) ==> NoTies(OnKey(history, key))
  {
    forall i | 0 <= i < |OnKey(history, key)| ensures OnKey(history, key)[i] in history {
      var op := OnKey(history, key)[i];
      OnKeyCounts(history, key, op);
      assert op in multiset(OnKey(history, key));
      assert op in multiset(history);
    }
  }

  /** The check of a key-value history, part by part. */
  method CheckOperations(history: seq<KvOperation>) returns (ok: bool)
    requires history != [] && Intervals(history)
    ensures ok ==> IsLinearizable(StoreModel(), history)
    ensures IsLinearizableTies(StoreModel(), history) ==> ok
    ensures NoTies(history) ==> (ok <==> IsLinearizable(StoreModel(), history))
  {
    hide OnKey, KeysOf, Explains, StoreModel, KvModel, Congruent, NoTies;
    var partitions, keys := Partition(history);
    KvCongruent();
    Locality(history);
    for i := 0 to |partitions|
      invariant forall j :: 0 <= j < i ==> IsLinearizable(KvModel(), OnKey(history, keys[j]))
    {
      PartKeepsTimes(history, keys[i]);
      var result, _ := CheckHistory(KvModel(), partitions[i]);
      if !result {
        if IsLinearizableTies(StoreModel(), history) { TiesOnKey(history, keys[i]); }
        assert keys[i] in KeysOf(history);
        return false;
      }
    }
    ok := true;
  }
}
