/** Histories given as events in the order they happened, under whatever ids the clients used: the ids
    are renumbered from 0 in order of appearance before the search. */
module Events {
  import opened Quorums
  import opened Linearizability
  import CheckSingle

  datatype Event<I, O> =
    | CallEvent(id: int, input: I)
    | ReturnEvent(id: int, output: O)

  /** The ids in order of first appearance. */
  function Names<I, O>(events: seq<Event<I, O>>): seq<int> {
    if events == [] then []
    else
      var names, id := Names(events[..|events| - 1]), events[|events| - 1].id;
      if id in names then names else names + [id]
  }

  ghost predicate Named<I, O>(events: seq<Event<I, O>>, id: int) {
    exists p :: 0 <= p < |events| && events[p].id == id
  }

  lemma NamedNext<I, O>(events: seq<Event<I, O>>, id: int)
    requires events != []
    ensures Named(events, id) <==> Named(events[..|events| - 1], id) || events[|events| - 1].id == id
  {
    var n := |events| - 1;
    if p :| 0 <= p < n && events[..n][p].id == id { assert events[p].id == id; }
    if p :| 0 <= p < |events| && events[p].id == id && p != n { assert events[..n][p].id == id; }
  }

  /** The names are the ids that occur, each once. */
  lemma {:induction false} NamesOccur<I, O>(events: seq<Event<I, O>>)
    ensures Distinct(Names(events)) && forall id :: id in Names(events) <==> Named(events, id)
  {
    hide Named;
    if events == [] {
      NoneNamed<I, O>();
    } else {
      NamesOccur(events[..|events| - 1]);
      forall id ensures id in Names(events) <==> Named(events, id) { NamedNext(events, id); }
    }
  }

  lemma NoneNamed<I, O>()
    ensures forall id :: !Named<I, O>([], id)
  {
  }

  lemma {:induction false} NamesAre<I, O>(events: seq<Event<I, O>>)
    ensures Distinct(Names(events))
    ensures forall p :: 0 <= p < |events| ==> events[p].id in Names(events)
    ensures forall k :: 0 <= k < |Names(events)| ==> exists p :: 0 <= p < |events| && events[p].id == Names(events)[k]
  {
    NamesOccur(events);
    hide Names, Distinct;
    forall p | 0 <= p < |events| ensures events[p].id in Names(events) { assert Named(events, events[p].id); }
    forall k | 0 <= k < |Names(events)| ensures exists p :: 0 <= p < |events| && events[p].id == Names(events)[k] {
      assert Names(events)[k] in Names(events);
      assert Named(events, Names(events)[k]);
    }
  }

  /** e is the events with every id replaced by its number among the names. */
  ghost predicate Renames<I, O>(events: seq<Event<I, O>>, e: seq<Event<I, O>>, names: seq<int>) {
    |e| == |events| && forall p :: 0 <= p < |e| ==>
      0 <= e[p].id < |names| && names[e[p].id] == events[p].id && e[p] == events[p].(id := e[p].id)
  }

  lemma NoNames<I, O>()
    ensures Names<I, O>([]) == []
  {
  }

  lemma NamesStep<I, O>(events: seq<Event<I, O>>, i: nat)
    requires i < |events|
    ensures var names, id := Names(events[..i]), events[i].id;
      Names(events[..i + 1]) == if id in names then names else names + [id]
  {
    assert events[..i + 1][..i] == events[..i];
  }

  method Renumber<I, O>(events: seq<Event<I, O>>) returns (e: seq<Event<I, O>>)
    ensures Renames(events, e, Names(events))
  {
    hide Names;
    e := [];
    var m: map<int, int> := map[];
    var id := 0;
    NoNames<I, O>();
    for i := 0 to |events|
      invariant Renames(events[..i], e, Names(events[..i])) && id == |Names(events[..i])|
      invariant forall x :: x in m <==> x in Names(events[..i])
      invariant forall x :: x in m ==> 0 <= m[x] < id && Names(events[..i])[m[x]] == x
    {
      var v := events[i];
      NamesStep(events, i);
      if v.id in m {
        e := e + [v.(id := m[v.id])];
      } else {
        e := e + [v.(id := id)];
        m := m[v.id := id];
        id := id + 1;
      }
    }
    assert events[..|events|] == events;
  }

  function Converted<I, O>(e: Event<I, O>): Entry<I, O>
    requires e.id >= 0
  {
    match e
    case CallEvent(id, v) => Call(id, v)
    case ReturnEvent(id, v) => Return(id, v)
  }

  method ConvertEntries<I, O>(events: seq<Event<I, O>>) returns (entries: seq<Entry<I, O>>)
    requires forall p :: 0 <= p < |events| ==> events[p].id >= 0
    ensures |entries| == |events| && forall p :: 0 <= p < |events| ==> entries[p] == Converted(events[p])
  {
    entries := [];
    for i := 0 to |events|
      invariant |entries| == i && forall p :: 0 <= p < i ==> entries[p] == Converted(events[p])
    {
      entries := entries + [Converted(events[i])];
    }
  }

  ghost predicate Pair<I, O>(events: seq<Event<I, O>>, p: nat, q: nat) {
    p < q < |events| && events[p].CallEvent? && events[q].ReturnEvent? && events[p].id == events[q].id
  }

  /** Every id is called once and then returned once. */
  ghost predicate Complete<I, O>(events: seq<Event<I, O>>) {
    && (forall p: nat :: p < |events| && events[p].CallEvent? ==> exists q: nat :: Pair(events, p, q))
    && (forall q: nat :: q < |events| && events[q].ReturnEvent? ==> exists p: nat :: Pair(events, p, q))
    && (forall p, q :: 0 <= p < q < |events| && events[p].CallEvent? == events[q].CallEvent? ==> events[p].id != events[q].id)
  }

  /** The history says what the events say, the operations numbered by first appearance. */
  ghost predicate Describes<I, O>(h: History<I, O>, events: seq<Event<I, O>>) {
    var names := Names(events);
    && h.Size() == |names| && |h.entries| == |events|
    && forall p :: 0 <= p < |events| ==>
         h.entries[p].id < |names| && names[h.entries[p].id] == events[p].id && h.entries[p] == Converted(events[p].(id := h.entries[p].id))
  }

  ghost predicate At<I, O>(events: seq<Event<I, O>>, id: int, call: bool, p: nat) {
    p < |events| && events[p].id == id && events[p].CallEvent? == call
  }

  lemma BothAt<I, O>(events: seq<Event<I, O>>, id: int)
    requires Complete(events) && id in Names(events)
    ensures exists p: nat :: At(events, id, true, p)
    ensures exists p: nat :: At(events, id, false, p)
  {
    NamesAre(events);
    var k :| 0 <= k < |Names(events)| && Names(events)[k] == id;
    var r: nat :| r < |events| && events[r].id == id;
    if events[r].CallEvent? {
      var q: nat :| Pair(events, r, q);
      assert At(events, id, true, r) && At(events, id, false, q);
    } else {
      var p: nat :| Pair(events, p, r);
      assert At(events, id, true, p) && At(events, id, false, r);
    }
  }

  ghost function Where<I, O>(events: seq<Event<I, O>>, id: int, call: bool): (p: nat)
    requires Complete(events) && id in Names(events)
    ensures At(events, id, call, p)
  {
    BothAt(events, id);
    var p: nat :| At(events, id, call, p);
    p
  }

  ghost function Places<I, O>(events: seq<Event<I, O>>, call: bool): (s: seq<nat>)
    requires Complete(events)
    ensures |s| == |Names(events)|
    ensures forall k :: 0 <= k < |s| ==> At(events, Names(events)[k], call, s[k])
  {
    seq(|Names(events)|, k requires 0 <= k < |Names(events)| => Where(events, Names(events)[k], call))
  }

  lemma OnePlace<I, O>(events: seq<Event<I, O>>, p: nat, q: nat)
    requires Complete(events) && p < |events| && q < |events|
    requires events[p].CallEvent? == events[q].CallEvent? && events[p].id == events[q].id
    ensures p == q
  {
  }

  /** As many events of either kind as there are names. */
  lemma Count<I, O>(events: seq<Event<I, O>>, call: bool) returns (a: set<nat>)
    requires Complete(events)
    ensures |a| == |Names(events)| && forall p: nat :: p in a <==> p < |events| && events[p].CallEvent? == call
  {
    hide Names, Places, Complete, Pair;
    NamesAre(events);
    var s := Places(events, call);
    forall i, j | 0 <= i < j < |s| ensures s[i] != s[j] {
      assert At(events, Names(events)[i], call, s[i]) && At(events, Names(events)[j], call, s[j]);
    }
    IdsSize(s);
    a := Ids(s);
    forall p: nat ensures p in a <==> p < |events| && events[p].CallEvent? == call {
      if p < |events| && events[p].CallEvent? == call {
        var k := IndexOf<int>(Names(events), events[p].id);
        assert At(events, Names(events)[k], call, s[k]);
        OnePlace(events, p, s[k]);
      }
    }
  }

  lemma HalfCalls<I, O>(events: seq<Event<I, O>>)
    requires Complete(events)
    ensures |events| == 2 * |Names(events)|
  {
    hide Names, Complete;
    var a := Count(events, true);
    var b := Count(events, false);
    assert a + b == Below(|events|) && a !! b;
  }

  ghost function TheHistory<I, O>(events: seq<Event<I, O>>): History<I, O>
    requires Complete(events)
  {
    NamesAre(events);
    History(seq(|events|, p requires 0 <= p < |events| => Converted(events[p].(id := IndexOf<int>(Names(events), events[p].id)))),
            Places(events, true), Places(events, false))
  }

  lemma HistoryParts<I, O>(events: seq<Event<I, O>>)
    requires Complete(events)
    ensures var h, names := TheHistory(events), Names(events);
      && Describes(h, events) && |h.ret| == |h.call| == |names| && Distinct(names)
      && forall x :: 0 <= x < |names| ==> At(events, names[x], true, h.call[x]) && At(events, names[x], false, h.ret[x])
  {
    NamesAre(events);
  }

  lemma CallBeforeReturn<I, O>(events: seq<Event<I, O>>, id: int, p: nat, q: nat)
    requires Complete(events) && At(events, id, true, p) && At(events, id, false, q)
    ensures p < q
  {
    var r: nat :| Pair(events, p, r);
    OnePlace(events, r, q);
  }

  /** Complete events, renumbered, are a well-formed history. */
  lemma HistoryOfEvents<I, O>(events: seq<Event<I, O>>)
    requires Complete(events)
    ensures TheHistory(events).Valid() && Describes(TheHistory(events), events)
  {
    hide TheHistory, Names, Complete, Places;
    var h, names := TheHistory(events), Names(events);
    HistoryParts(events);
    HalfCalls(events);
    forall x | 0 <= x < |names| ensures h.call[x] < h.ret[x] < |events| {
      CallBeforeReturn(events, names[x], h.call[x], h.ret[x]);
    }
    forall p | 0 <= p < |events| ensures p == if events[p].CallEvent? then h.call[h.entries[p].id] else h.ret[h.entries[p].id] {
      var x := h.entries[p].id;
      OnePlace(events, p, if events[p].CallEvent? then h.call[x] else h.ret[x]);
    }
    forall x | 0 <= x < |names|
      ensures h.entries[h.call[x]].Call? && h.entries[h.call[x]].id == x && h.entries[h.ret[x]].Return? && h.entries[h.ret[x]].id == x
    {
      assert names[h.entries[h.call[x]].id] == names[x] == names[h.entries[h.ret[x]].id];
    }
  }

  /** The entries of a history fix the rest of it. */
  lemma EntriesFix<I, O>(h: History<I, O>, g: History<I, O>)
    requires h.Valid() && g.Valid() && h.entries == g.entries
    ensures h == g
  {
    forall x | 0 <= x < h.Size() ensures h.call[x] == g.call[x] && h.ret[x] == g.ret[x] {
      var p, q := h.call[x], h.ret[x];
      assert g.entries[p].Call? && g.entries[p].id == x && g.entries[q].Return? && g.entries[q].id == x;
    }
  }

  /** Events describe one history only. */
  lemma DescribedOnce<I, O>(h: History<I, O>, g: History<I, O>, events: seq<Event<I, O>>)
    requires h.Valid() && g.Valid() && Describes(h, events) && Describes(g, events)
    ensures h == g
  {
    hide Names, History.Valid;
    NamesAre(events);
    forall p | 0 <= p < |events| ensures h.entries[p] == g.entries[p] {
      assert h.entries[p].id == g.entries[p].id;
    }
    EntriesFix(h, g);
  }

  /** The answer for complete events is exact for the one history they describe. */
  method CheckEvents<S(!new), I(!new), O(!new)>(m: Model<S, I, O>, events: seq<Event<I, O>>) returns (ok: bool)
    requires Congruent(m) && Complete(events)
    ensures exists h: History<I, O> :: h.Valid() && Describes(h, events)
    ensures forall h: History<I, O> :: h.Valid() && Describes(h, events) ==> (ok <==> Linearizable(m, h))
  {
    hide Congruent, Complete, History.Valid, Linearizable, TheHistory;
    HistoryOfEvents(events);
    ghost var h := TheHistory(events);
    var e := Renumber(events);
    var entries := ConvertEntries(e);
    SameEntries(h, events, e, entries);
    var order;
    ok, order := CheckSingle.Run(m, entries, h);
    forall g: History<I, O> | g.Valid() && Describes(g, events) ensures ok <==> Linearizable(m, g) {
      DescribedOnce(h, g, events);
    }
  }

  lemma SameEntries<I, O>(h: History<I, O>, events: seq<Event<I, O>>, e: seq<Event<I, O>>, entries: seq<Entry<I, O>>)
    requires Describes(h, events) && Renames(events, e, Names(events))
    requires |entries| == |e| && forall p :: 0 <= p < |e| ==> entries[p] == Converted(e[p])
    ensures h.entries == entries
  {
    hide Names;
    NamesAre(events);
    forall p | 0 <= p < |e| ensures h.entries[p] == entries[p] {
      assert h.entries[p].id == e[p].id;
    }
  }
}
