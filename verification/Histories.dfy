/** From recorded operations and events to the histories that the checker searches, and the verdict
    on a whole key/value history. */
module Histories {
  import opened Linearizability
  import opened SearchTheory
  import opened EntryList
  import opened Checker
  import opened Sorting
  import opened KvModel
  import opened Locality

  /** The same operations under times that put the same ones before each other. */
  ghost predicate SamePrecedence<I, O>(a: seq<Operation<I, O>>, b: seq<Operation<I, O>>) {
    && |a| == |b|
    && (forall x: nat :: x < |a| ==> a[x].input == b[x].input && a[x].output == b[x].output)
    && (forall x: nat, y: nat :: x < |a| && y < |a| ==> (a[x].ret < a[y].call <==> b[x].ret < b[y].call))
  }

  lemma {:induction false} SameRun<S, I, O>(m: Model<S, I, O>, a: seq<Operation<I, O>>, b: seq<Operation<I, O>>, ids: seq<nat>)
    requires SamePrecedence(a, b) && ValidIds(ids, |a|)
    ensures Run(m, Pick(a, ids)) == Run(m, Pick(b, ids))
  {
    if ids != [] {
      var front, x := ids[..|ids| - 1], ids[|ids| - 1];
      assert ids == front + [x];
      SameRun(m, a, b, front);
      RunExtends(m, a, front, x);
      RunExtends(m, b, front, x);
    }
  }

  lemma SameById<S, I, O>(m: Model<S, I, O>, a: seq<Operation<I, O>>, b: seq<Operation<I, O>>, ids: seq<nat>)
    requires SamePrecedence(a, b) && LinearizationById(m, a, ids)
    ensures LinearizationById(m, b, ids)
  {
    SameRun(m, a, b, ids);
    forall i, j | 0 <= i < j < |ids| ensures !(Pick(b, ids)[j].ret < Pick(b, ids)[i].call) {
      assert !(Pick(a, ids)[j].ret < Pick(a, ids)[i].call);
    }
  }

  lemma SameVerdict<S, I(!new), O(!new)>(m: Model<S, I, O>, a: seq<Operation<I, O>>, b: seq<Operation<I, O>>)
    requires SamePrecedence(a, b)
    ensures Linearizable(m, a) <==> Linearizable(m, b)
  {
    hide Linearizable;
    LinearizableById(m, a);
    LinearizableById(m, b);
    if ids :| LinearizationById(m, a, ids) { SameById(m, a, b, ids); }
    if ids :| LinearizationById(m, b, ids) { SameById(m, b, a, ids); }
  }

  // ----- Operations

  /** Which of two operations came first is never left open by equal times. */
  ghost predicate NoTies<I, O>(ops: seq<Operation<I, O>>) {
    forall x: nat, y: nat :: x < |ops| && y < |ops| ==> ops[x].call != ops[y].ret
  }

  predicate Earlier<I, O>(a: Entry<I, O>, b: Entry<I, O>) {
    a.time <= b.time
  }

  /** A call and a return for every operation, in the order of the operations. */
  function BothEntries<I, O>(history: seq<Operation<I, O>>): (r: seq<Entry<I, O>>)
    ensures |r| == 2 * |history|
    ensures forall x: nat :: x < |history| ==>
              && r[2 * x] == CallEntry(history[x].input, x, history[x].call)
              && r[2 * x + 1] == ReturnEntry(history[x].output, x, history[x].ret)
  {
    if history == [] then [] else
      var x := |history| - 1;
      BothEntries(history[..x]) + [CallEntry(history[x].input, x, history[x].call), ReturnEntry(history[x].output, x, history[x].ret)]
  }

  method MakeEntries<I(!new), O(!new)>(history: seq<Operation<I, O>>) returns (h: seq<Entry<I, O>>)
    requires Timed(history) && NoTies(history)
    ensures IsHistory(h) && SamePrecedence(OperationsOf(h), history)
  {
    var entries: seq<Entry<I, O>> := [];
    for id := 0 to |history|
      invariant entries == BothEntries(history[..id])
    {
      var elem := history[id];
      entries := entries + [CallEntry(elem.input, id, elem.call)];
      entries := entries + [ReturnEntry(elem.output, id, elem.ret)];
      assert history[..id + 1][..id] == history[..id];
    }
    assert history[..|history|] == history;
    h := Sort(entries, Earlier);
    SortedIsHistory(history, h);
  }

  lemma PlaceOf<I, O>(history: seq<Operation<I, O>>, h: seq<Entry<I, O>>, ids: seq<nat>, k: nat) returns (p: nat)
    requires IsPermutation(ids, 2 * |history|) && Pick(BothEntries(history), ids) == h && k < 2 * |history|
    ensures p < |h| && ids[p] == k && h[p] == BothEntries(history)[k]
  {
    DistinctSize(ids, 2 * |history|);
    assert k in ids;
    p :| 0 <= p < |ids| && ids[p] == k;
  }

  lemma {:induction false} EntryIds<I, O>(history: seq<Operation<I, O>>, k: nat)
    requires k < 2 * |history|
    ensures BothEntries(history)[k].id == k / 2
  {
    var x := k / 2;
    assert k == 2 * x || k == 2 * x + 1;
    assert BothEntries(history)[2 * x].id == x && BothEntries(history)[2 * x + 1].id == x;
  }

  lemma EarlierFirst<I, O>(h: seq<Entry<I, O>>, p: nat, q: nat)
    requires SortedBy(h, Earlier) && p < |h| && q < |h|
    ensures h[p].time < h[q].time ==> p < q
  {
    if q < p { assert Earlier(h[q], h[p]); }
  }

  lemma SortedPlaces<I, O>(history: seq<Operation<I, O>>, h: seq<Entry<I, O>>, ids: seq<nat>, x: nat) returns (a: nat, b: nat)
    requires Timed(history) && SortedBy(h, Earlier) && x < |history|
    requires IsPermutation(ids, 2 * |history|) && Pick(BothEntries(history), ids) == h
    ensures Placed(h, x, a, b)
    ensures h[a] == BothEntries(history)[2 * x] && h[b] == BothEntries(history)[2 * x + 1]
  {
    a := PlaceOf(history, h, ids, 2 * x);
    b := PlaceOf(history, h, ids, 2 * x + 1);
    EarlierFirst(h, a, b);
    forall k: nat | k < |h| && h[k].id == x ensures k == a || k == b {
      EntryIds(history, ids[k]);
      assert ids[k] == 2 * x || ids[k] == 2 * x + 1;
    }
  }

  lemma {:induction false} SortedIsHistory<I, O>(history: seq<Operation<I, O>>, h: seq<Entry<I, O>>)
    requires Timed(history) && NoTies(history) && SortedBy(h, Earlier)
    requires multiset(h) == multiset(BothEntries(history))
    ensures IsHistory(h) && SamePrecedence(OperationsOf(h), history)
  {
    var ids := RearrangementHasIds(BothEntries(history), h);
    forall k: nat | k < |h| ensures h[k].id < |h| / 2 {
      EntryIds(history, ids[k]);
    }
    forall x: nat | x < |h| / 2 ensures Occurs(h, x) {
      var a, b := SortedPlaces(history, h, ids, x);
    }
    SortedPrecedence(history, h, ids);
  }

  /** Where an operation's entries have been put. */
  lemma {:induction false} OwnEntries<I, O>(history: seq<Operation<I, O>>, h: seq<Entry<I, O>>, ids: seq<nat>, x: nat)
    requires Timed(history) && SortedBy(h, Earlier) && IsHistory(h) && x < |history|
    requires IsPermutation(ids, 2 * |history|) && Pick(BothEntries(history), ids) == h
    ensures h[CallAt(h, x) - 1] == CallEntry(history[x].input, x, history[x].call)
    ensures h[ReturnAt(h, x) - 1] == ReturnEntry(history[x].output, x, history[x].ret)
  {
    var a, b := SortedPlaces(history, h, ids, x);
    assert Placed(h, x, CallAt(h, x) - 1, ReturnAt(h, x) - 1);
  }

  lemma {:induction false} SortedPrecedence<I, O>(history: seq<Operation<I, O>>, h: seq<Entry<I, O>>, ids: seq<nat>)
    requires Timed(history) && NoTies(history) && SortedBy(h, Earlier) && IsHistory(h)
    requires IsPermutation(ids, 2 * |history|) && Pick(BothEntries(history), ids) == h
    ensures SamePrecedence(OperationsOf(h), history)
  {
    hide SortedBy, IsHistory, BothEntries, Pick, Places;
    forall x: nat, y: nat | x < |history| && y < |history|
      ensures ReturnAt(h, x) < CallAt(h, y) <==> history[x].ret < history[y].call
      ensures OperationsOf(h)[x].input == history[x].input && OperationsOf(h)[x].output == history[x].output
    {
      OwnEntries(history, h, ids, x);
      OwnEntries(history, h, ids, y);
      EarlierFirst(h, ReturnAt(h, x) - 1, CallAt(h, y) - 1);
      EarlierFirst(h, CallAt(h, y) - 1, ReturnAt(h, x) - 1);
    }
  }

  // ----- The verdict

  datatype CheckResult = Ok | Illegal

  /** Every part is checked; the verdict is bad as soon as one of them is. */
  method CheckParallel<S(==), I(!new), O(!new)>(model: Model<S, I, O>, history: seq<seq<Entry<I, O>>>, computeInfo: bool)
    returns (result: CheckResult)
    requires history != [] && forall i :: 0 <= i < |history| ==> IsHistory(history[i])
    ensures result == Ok <==> forall i :: 0 <= i < |history| ==> Linearizable(model, OperationsOf(history[i]))
  {
    var ok := true;
    for i := 0 to |history|
      invariant ok <==> forall j :: 0 <= j < i ==> Linearizable(model, OperationsOf(history[j]))
    {
      var good, _ := CheckSingle(model, history[i], computeInfo);
      ok := ok && good;
      if !ok && !computeInfo {
        return Illegal;
      }
    }
    result := if ok then Ok else Illegal;
  }

  /** The checker accepts a key/value history exactly when it is linearizable for the whole store. */
  method CheckOperations(history: seq<KvOperation>, verbose: bool) returns (result: CheckResult)
    requires history != [] && Timed(history) && NoTies(history)
    ensures result == Ok <==> Linearizable(Store(), history)
  {
    hide Linearizable, OperationsOf, Only, IsHistory, SamePrecedence, Timed, NoTies;
    var partitions, keys := Partition(history);
    assert history[0].input.key in keys;
    var l: seq<seq<Entry<KvInput, KvOutput>>> := [];
    for i := 0 to |partitions|
      invariant |l| == i
      invariant forall j :: 0 <= j < i ==> IsHistory(l[j]) && SamePrecedence(OperationsOf(l[j]), partitions[j])
    {
      OnlyKeepsTimes(history, keys[i]);
      var entries := MakeEntries(partitions[i]);
      l := l + [entries];
    }
    result := CheckParallel(Single(), l, verbose);
    forall i | 0 <= i < |l| ensures Linearizable(Single(), OperationsOf(l[i])) <==> Linearizable(Single(), partitions[i]) {
      SameVerdict(Single(), OperationsOf(l[i]), partitions[i]);
    }
    PartitionIsSound(history, partitions, keys);
  }

  lemma {:induction false} OnlyKeepsTimes(history: seq<KvOperation>, k: string)
    requires Timed(history) && NoTies(history)
    ensures Timed(Only(history, Key, k)) && NoTies(Only(history, Key, k))
  {
    var part := Only(history, Key, k);
    forall x: nat | x < |part| ensures part[x] in history { OnlyIn(history, Key, k, part[x]); }
    forall x: nat, y: nat | x < |part| && y < |part|
      ensures part[x].call < part[x].ret && part[x].call != part[y].ret
    {
      var i :| 0 <= i < |history| && history[i] == part[x];
      var j :| 0 <= j < |history| && history[j] == part[y];
    }
  }

  // ----- Events

  datatype Event<I, O> = CallEvent(input: I, id: int) | ReturnEvent(output: O, id: int)

  /** The event with another id. */
  function WithId<I, O>(v: Event<I, O>, id: int): Event<I, O> {
    match v
    case CallEvent(input, _) => CallEvent(input, id)
    case ReturnEvent(output, _) => ReturnEvent(output, id)
  }

  /** The ids have been renamed one to one to 0, 1, ..., n - 1, in the order of their first use. */
  ghost predicate Renumbered<I, O>(events: seq<Event<I, O>>, e: seq<Event<I, O>>, n: nat) {
    && |e| == |events|
    && (forall i :: 0 <= i < |e| ==> 0 <= e[i].id < n && e[i] == WithId(events[i], e[i].id))
    && (forall i, j :: 0 <= i < j < |e| ==> (e[i].id == e[j].id <==> events[i].id == events[j].id))
    && (forall r: nat :: r < n ==> UsedFirst(e, r))
  }

  ghost predicate UsedFirst<I, O>(e: seq<Event<I, O>>, r: nat) {
    exists i :: 0 <= i < |e| && e[i].id == r && forall j :: 0 <= j < i ==> e[j].id < r
  }

  lemma UsedStays<I, O>(e: seq<Event<I, O>>, v: Event<I, O>, r: nat)
    requires UsedFirst(e, r)
    ensures UsedFirst(e + [v], r)
  {
    var i :| 0 <= i < |e| && e[i].id == r && forall j :: 0 <= j < i ==> e[j].id < r;
    assert (e + [v])[i].id == r && forall j :: 0 <= j < i ==> (e + [v])[j].id < r;
  }

  /** One more event under an id used before. */
  lemma RenumberedOld<I, O>(events: seq<Event<I, O>>, e: seq<Event<I, O>>, n: nat, v: Event<I, O>, k: nat)
    requires Renumbered(events, e, n) && k < |events| && events[k].id == v.id
    ensures Renumbered(events + [v], e + [WithId(v, e[k].id)], n)
  {
    var e' := e + [WithId(v, e[k].id)];
    forall r: nat | r < n ensures UsedFirst(e', r) { UsedStays(e, WithId(v, e[k].id), r); }
    forall i | 0 <= i < |e| ensures e[i].id == e[k].id <==> events[i].id == v.id {
      assert i < k || i == k || k < i;
    }
  }

  /** One more event under a new id. */
  lemma RenumberedNew<I, O>(events: seq<Event<I, O>>, e: seq<Event<I, O>>, n: nat, v: Event<I, O>)
    requires Renumbered(events, e, n) && forall i :: 0 <= i < |events| ==> events[i].id != v.id
    ensures Renumbered(events + [v], e + [WithId(v, n)], n + 1)
  {
    var e' := e + [WithId(v, n)];
    forall r: nat | r < n + 1 ensures UsedFirst(e', r) {
      if r < n {
        UsedStays(e, WithId(v, n), r);
      } else {
        assert e'[|e|].id == n && forall j :: 0 <= j < |e| ==> e'[j].id < n;
      }
    }
  }

  method Renumber<I, O>(events: seq<Event<I, O>>) returns (e: seq<Event<I, O>>, ghost n: nat)
    ensures Renumbered(events, e, n)
  {
    e := [];
    var m: map<int, nat> := map[];
    var id: nat := 0;
    for k := 0 to |events|
      invariant Renumbered(events[..k], e, id) && |e| == k
      invariant forall x :: x in m <==> exists i :: 0 <= i < k && events[i].id == x
      invariant forall i :: 0 <= i < k ==> m[events[i].id] == e[i].id
    {
      hide UsedFirst, Renumbered;
      var v := events[k];
      assert events[..k + 1] == events[..k] + [v];
      if v.id in m {
        ghost var i :| 0 <= i < k && events[i].id == v.id;
        RenumberedOld(events[..k], e, id, v, i);
        e := e + [WithId(v, m[v.id])];
      } else {
        RenumberedNew(events[..k], e, id, v);
        e := e + [WithId(v, id)];
        m := m[v.id := id];
        id := id + 1;
      }
    }
    assert events[..|events|] == events;
    n := id;
  }

  function ToEntry<I, O>(elem: Event<I, O>, time: int): Entry<I, O>
    requires elem.id >= 0
  {
    match elem
    case CallEvent(input, id) => CallEntry(input, id, time)
    case ReturnEvent(output, id) => ReturnEntry(output, id, time)
  }

  /** An event's place is its time. */
  method ConvertEntries<I, O>(events: seq<Event<I, O>>) returns (entries: seq<Entry<I, O>>)
    requires forall i :: 0 <= i < |events| ==> events[i].id >= 0
    ensures |entries| == |events| && forall i :: 0 <= i < |events| ==> entries[i] == ToEntry(events[i], i)
    ensures forall i :: 0 <= i < |events| ==>
              && entries[i].id == events[i].id && entries[i].time == i
              && (entries[i].CallEntry? <==> events[i].CallEvent?)
              && (entries[i].CallEntry? ==> entries[i].input == events[i].input)
              && (entries[i].ReturnEntry? ==> entries[i].output == events[i].output)
  {
    entries := [];
    for i := 0 to |events|
      invariant |entries| == i && forall j :: 0 <= j < i ==> entries[j] == ToEntry(events[j], j)
    {
      entries := entries + [ToEntry(events[i], i)];
    }
  }

  ghost predicate PairAt<I, O>(events: seq<Event<I, O>>, id: int, a: nat, b: nat) {
    && a < b < |events|
    && events[a].CallEvent? && events[b].ReturnEvent? && events[a].id == events[b].id == id
    && forall k: nat :: k < |events| && events[k].id == id ==> k == a || k == b
  }

  ghost predicate HasPair<I, O>(events: seq<Event<I, O>>, id: int) {
    exists a, b :: PairAt(events, id, a, b)
  }

  /** Whatever is called returns once, later, and nothing else happens under its id. */
  ghost predicate WellPaired<I, O>(events: seq<Event<I, O>>) {
    forall i :: 0 <= i < |events| ==> HasPair(events, events[i].id)
  }

  /** The places taken by the operations with ids below k. */
  ghost function PlacesBelow<I, O>(h: seq<Entry<I, O>>, k: nat): set<nat> {
    set p: nat | p < |h| && h[p].id < k
  }

  lemma TwoMore(s: set<nat>, a: nat, b: nat)
    requires a !in s && b !in s && a != b
    ensures |s + {a, b}| == |s| + 2
  {
    assert s + {a, b} == s + {a} + {b};
  }

  lemma OwnTwoPlaces<I, O>(h: seq<Entry<I, O>>, id: nat, a: nat, b: nat)
    requires Placed(h, id, a, b)
    ensures PlacesBelow(h, id + 1) == PlacesBelow(h, id) + {a, b}
    ensures a !in PlacesBelow(h, id) && b !in PlacesBelow(h, id) && a != b
  {
    forall p: nat ensures p in PlacesBelow(h, id + 1) <==> p in PlacesBelow(h, id) || p == a || p == b {
    }
  }

  lemma TwoPlacesEach<I, O>(h: seq<Entry<I, O>>, k: nat)
    requires forall id: nat :: id < k ==> Occurs(h, id)
    ensures |PlacesBelow(h, k)| == 2 * k
  {
    if k > 0 {
      TwoPlacesEach(h, k - 1);
      assert Occurs(h, k - 1);
      var a: nat, b: nat :| Placed(h, k - 1, a, b);
      OwnTwoPlaces(h, k - 1, a, b);
      hide PlacesBelow, Placed;
      TwoMore(PlacesBelow(h, k - 1), a, b);
    }
  }

  lemma AllPlaces<I, O>(h: seq<Entry<I, O>>, n: nat)
    requires forall p: nat :: p < |h| ==> h[p].id < n
    ensures |PlacesBelow(h, n)| == |h|
  {
    assert PlacesBelow(h, n) == Ids(|h|);
  }

  lemma ConvertedOccurs<I, O>(events: seq<Event<I, O>>, e: seq<Event<I, O>>, n: nat, h: seq<Entry<I, O>>, id: nat)
    requires WellPaired(events) && Renumbered(events, e, n) && id < n
    requires |h| == |e| && forall i :: 0 <= i < |e| ==> h[i] == ToEntry(e[i], i)
    ensures Occurs(h, id)
  {
    assert UsedFirst(e, id);
    var i :| 0 <= i < |e| && e[i].id == id;
    assert HasPair(events, events[i].id);
    var a: nat, b: nat :| PairAt(events, events[i].id, a, b);
    forall k: nat | k < |h| && h[k].id == id ensures k == a || k == b {
      assert e[k].id == id;
      if k < i {
        assert e[k].id == e[i].id <==> events[k].id == events[i].id;
      } else if k > i {
        assert e[i].id == e[k].id <==> events[i].id == events[k].id;
      }
      assert events[k].id == events[i].id;
    }
    assert i == a || i == b;
    assert h[a].id == id && h[b].id == id;
    assert Placed(h, id, a, b);
  }

  lemma ConvertedIsHistory<I, O>(events: seq<Event<I, O>>, e: seq<Event<I, O>>, n: nat, h: seq<Entry<I, O>>)
    requires WellPaired(events) && Renumbered(events, e, n)
    requires |h| == |e| && forall i :: 0 <= i < |e| ==> h[i] == ToEntry(e[i], i)
    ensures IsHistory(h)
  {
    hide WellPaired, UsedFirst, Occurs, PlacesBelow;
    forall id: nat | id < n ensures Occurs(h, id) {
      ConvertedOccurs(events, e, n, h, id);
    }
    TwoPlacesEach(h, n);
    AllPlaces(h, n);
  }

  /** The history stands for the events: each entry is the event in its place, and ids are equal where
      the events' ids are. */
  ghost predicate StandsFor<I(!new), O(!new)>(h: seq<Entry<I, O>>, events: seq<Event<I, O>>) {
    && IsHistory(h) && |h| == |events|
    && (forall i :: 0 <= i < |h| ==>
          && (events[i].CallEvent? ==> h[i].CallEntry? && h[i].input == events[i].input)
          && (events[i].ReturnEvent? ==> h[i].ReturnEntry? && h[i].output == events[i].output))
    && (forall i, j :: 0 <= i < j < |h| ==> (h[i].id == h[j].id <==> events[i].id == events[j].id))
  }

  /** One part of the events, in the order they happened. */
  method EntriesOf<I(!new), O(!new)>(events: seq<Event<I, O>>) returns (entries: seq<Entry<I, O>>)
    requires WellPaired(events)
    ensures StandsFor(entries, events)
  {
    var e, n := Renumber(events);
    entries := ConvertEntries(e);
    ConvertedIsHistory(events, e, n, entries);
  }

  /** The model splits the events into parts, by default into one. The verdict is good exactly when the
      operations of every part are linearizable. */
  method CheckEvents<S(==), I(!new), O(!new)>(model: Model<S, I, O>, partitionEvent: seq<Event<I, O>> -> seq<seq<Event<I, O>>>,
                                              history: seq<Event<I, O>>, verbose: bool)
    returns (result: CheckResult, ghost hs: seq<seq<Entry<I, O>>>)
    requires partitionEvent(history) != [] && forall i :: 0 <= i < |partitionEvent(history)| ==> WellPaired(partitionEvent(history)[i])
    ensures |hs| == |partitionEvent(history)| && forall i :: 0 <= i < |hs| ==> StandsFor(hs[i], partitionEvent(history)[i])
    ensures forall i :: 0 <= i < |hs| ==> IsHistory(hs[i])
    ensures result == Ok <==> forall i :: 0 <= i < |hs| ==> Linearizable(model, OperationsOf(hs[i]))
  {
    var partitions := partitionEvent(history);
    var l: seq<seq<Entry<I, O>>> := [];
    for i := 0 to |partitions|
      invariant |l| == i && forall j :: 0 <= j < i ==> StandsFor(l[j], partitions[j]) && IsHistory(l[j])
    {
      var entries := EntriesOf(partitions[i]);
      l := l + [entries];
    }
    result := CheckParallel(model, l, verbose);
    hs := l;
  }
}
