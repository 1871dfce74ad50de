/** Sorting pairs by key and reducing each run of equal keys, in one piece or bucket by bucket. */
module Grouping {
  import opened Sorting

  datatype KeyValue = KeyValue(key: string, value: string)

  /** One line of output: a key and what its values reduce to. */
  datatype Line = Line(key: string, output: string)

  type MapFunction = (string, string) -> seq<KeyValue>
  type ReduceFunction = (string, seq<string>) -> string

  /** The order in which the values come makes no difference. */
  ghost predicate OrderFree(reducef: ReduceFunction) {
    forall k, vs: seq<string>, ws: seq<string> :: multiset(vs) == multiset(ws) ==> reducef(k, vs) == reducef(k, ws)
  }

  predicate ByKey(a: KeyValue, b: KeyValue) {
    AtMost(a.key, b.key)
  }

  lemma ByKeyIsOrder()
    ensures TotalPreorder(ByKey)
  {
    AtMostIsOrder();
    assert forall a, b :: AtMost(a, b) || AtMost(b, a);
    assert forall a, b, c :: AtMost(a, b) && AtMost(b, c) ==> AtMost(a, c);
  }

  // ----- What is to be computed

  function KeysOf(kva: seq<KeyValue>): (keys: set<string>) {
    set i | 0 <= i < |kva| :: kva[i].key
  }

  function ValuesFor(kva: seq<KeyValue>, key: string): seq<string> {
    if kva == [] then [] else
      var kv := kva[|kva| - 1];
      ValuesFor(kva[..|kva| - 1], key) + if kv.key == key then [kv.value] else []
  }

  /** One line for every key, from all its values. */
  function Lines(kva: seq<KeyValue>, reducef: ReduceFunction): (lines: set<Line>) {
    set key | key in KeysOf(kva) :: Line(key, reducef(key, ValuesFor(kva, key)))
  }

  // ----- The loop that groups

  function RunLength(kva: seq<KeyValue>, key: string): (n: nat)
    ensures n <= |kva|
    ensures forall i :: 0 <= i < n ==> kva[i].key == key
    ensures n < |kva| ==> kva[n].key != key
  {
    if kva == [] || kva[0].key != key then 0 else 1 + RunLength(kva[1..], key)
  }

  function Values(kva: seq<KeyValue>): (vs: seq<string>)
    ensures |vs| == |kva| && forall i :: 0 <= i < |vs| ==> vs[i] == kva[i].value
  {
    seq(|kva|, i requires 0 <= i < |kva| => kva[i].value)
  }

  function Groups(kva: seq<KeyValue>, reducef: ReduceFunction): (lines: seq<Line>) {
    if kva == [] then [] else
      var n := RunLength(kva, kva[0].key);
      [Line(kva[0].key, reducef(kva[0].key, Values(kva[..n])))] + Groups(kva[n..], reducef)
  }

  method GroupReduce(kva: seq<KeyValue>, reducef: ReduceFunction) returns (lines: seq<Line>)
    ensures lines == Groups(kva, reducef)
  {
    hide Groups;
    lines := [];
    var i := 0;
    assert kva[0..] == kva;
    while i < |kva|
      invariant 0 <= i <= |kva|
      invariant lines + Groups(kva[i..], reducef) == Groups(kva, reducef)
    {
      var j := i + 1;
      while j < |kva| && kva[j].key == kva[i].key
        invariant i < j <= |kva|
        invariant forall k :: i <= k < j ==> kva[k].key == kva[i].key
      {
        j := j + 1;
      }
      var values := [];
      for k := i to j
        invariant |values| == k - i && forall x :: 0 <= x < k - i ==> values[x] == kva[i + x].value
      {
        values := values + [kva[k].value];
      }
      var output := reducef(kva[i].key, values);
      GroupsFrom(kva, i, j, values, reducef);
      lines := lines + [Line(kva[i].key, output)];
      i := j;
    }
    NoGroups(kva[i..], reducef);
  }

  lemma {:induction false} NoGroups(kva: seq<KeyValue>, reducef: ReduceFunction)
    requires kva == []
    ensures Groups(kva, reducef) == []
  {
  }

  lemma GroupsFrom(kva: seq<KeyValue>, i: nat, j: nat, values: seq<string>, reducef: ReduceFunction)
    requires i < j <= |kva| && forall k :: i <= k < j ==> kva[k].key == kva[i].key
    requires j < |kva| ==> kva[j].key != kva[i].key
    requires |values| == j - i && forall x :: 0 <= x < j - i ==> values[x] == kva[i + x].value
    ensures Groups(kva[i..], reducef) == [Line(kva[i].key, reducef(kva[i].key, values))] + Groups(kva[j..], reducef)
  {
    var rest := kva[i..];
    RunEnds(rest, j - i);
    assert values == Values(rest[..j - i]);
    assert rest[j - i..] == kva[j..];
  }

  lemma {:induction false} RunEnds(kva: seq<KeyValue>, n: nat)
    requires 0 < n <= |kva| && forall i :: 0 <= i < n ==> kva[i].key == kva[0].key
    requires n < |kva| ==> kva[n].key != kva[0].key
    ensures RunLength(kva, kva[0].key) == n
  {
    hide RunLength;
  }

  // ----- Values of concatenations and rearrangements

  lemma {:induction false} ValuesForConcat(a: seq<KeyValue>, b: seq<KeyValue>, key: string)
    ensures ValuesFor(a + b, key) == ValuesFor(a, key) + ValuesFor(b, key)
  {
    if b == [] {
      assert a + b == a;
    } else {
      assert (a + b)[..|a + b| - 1] == a + b[..|b| - 1];
      ValuesForConcat(a, b[..|b| - 1], key);
    }
  }

  lemma {:induction false} ValuesForRun(kva: seq<KeyValue>, key: string)
    requires forall i :: 0 <= i < |kva| ==> kva[i].key == key
    ensures ValuesFor(kva, key) == Values(kva)
  {
    if kva != [] {
      ValuesForRun(kva[..|kva| - 1], key);
    }
  }

  lemma {:induction false} ValuesForNone(kva: seq<KeyValue>, key: string)
    requires key !in KeysOf(kva)
    ensures ValuesFor(kva, key) == []
  {
    if kva != [] {
      assert kva[|kva| - 1].key in KeysOf(kva);
      assert KeysOf(kva[..|kva| - 1]) <= KeysOf(kva);
      ValuesForNone(kva[..|kva| - 1], key);
    }
  }

  lemma {:induction false} ValuesForCount(kva: seq<KeyValue>, key: string, v: string)
    ensures multiset(ValuesFor(kva, key))[v] == multiset(kva)[KeyValue(key, v)]
  {
    if kva != [] {
      ValuesForCount(kva[..|kva| - 1], key, v);
      assert kva == kva[..|kva| - 1] + [kva[|kva| - 1]];
    }
  }

  /** Rearranged pairs give the same lines. */
  lemma LinesRearranged(a: seq<KeyValue>, b: seq<KeyValue>, reducef: ReduceFunction)
    requires OrderFree(reducef) && multiset(a) == multiset(b)
    ensures Lines(a, reducef) == Lines(b, reducef)
  {
    forall x ensures x in KeysOf(a) <==> x in KeysOf(b) {
      if i :| 0 <= i < |a| && a[i].key == x { assert a[i] in multiset(a); }
      if i :| 0 <= i < |b| && b[i].key == x { assert b[i] in multiset(b); }
    }
    forall key ensures reducef(key, ValuesFor(a, key)) == reducef(key, ValuesFor(b, key)) {
      forall v ensures multiset(ValuesFor(a, key))[v] == multiset(ValuesFor(b, key))[v] {
        ValuesForCount(a, key, v);
        ValuesForCount(b, key, v);
      }
    }
  }

  // ----- Grouping sorted pairs

  lemma KeysOfConcat(a: seq<KeyValue>, b: seq<KeyValue>)
    ensures KeysOf(a + b) == KeysOf(a) + KeysOf(b)
  {
    forall x ensures x in KeysOf(a + b) <==> x in KeysOf(a) || x in KeysOf(b) {
      if i :| 0 <= i < |a| && a[i].key == x { assert (a + b)[i].key == x; }
      if i :| 0 <= i < |b| && b[i].key == x { assert (a + b)[|a| + i].key == x; }
    }
  }

  /** After the first run its key does not come again. */
  lemma RunIsOver(kva: seq<KeyValue>, n: nat)
    requires 0 < n <= |kva| && SortedBy(kva, ByKey) && (n < |kva| ==> kva[n].key != kva[0].key)
    ensures SortedBy(kva[n..], ByKey) && kva[0].key !in KeysOf(kva[n..])
  {
    var rest := kva[n..];
    forall i | 0 <= i < |rest| ensures rest[i].key != kva[0].key {
      assert ByKey(kva[0], kva[n]);
      AtMostTotal(kva[0].key, kva[n].key);
      if i > 0 { assert ByKey(kva[n], kva[n + i]); }
    }
    forall i, j | 0 <= i < j < |rest| ensures ByKey(rest[i], rest[j]) {
      assert ByKey(kva[n + i], kva[n + j]);
    }
  }

  lemma {:induction false} InLines(kva: seq<KeyValue>, reducef: ReduceFunction, line: Line)
    ensures line in Lines(kva, reducef) <==> line.key in KeysOf(kva) && line.output == reducef(line.key, ValuesFor(kva, line.key))
  {
  }

  lemma LinesOfRun(run: seq<KeyValue>, rest: seq<KeyValue>, key: string, reducef: ReduceFunction)
    requires run != [] && (forall i :: 0 <= i < |run| ==> run[i].key == key) && key !in KeysOf(rest)
    ensures Lines(run + rest, reducef) == {Line(key, reducef(key, Values(run)))} + Lines(rest, reducef)
    ensures Line(key, reducef(key, Values(run))) !in Lines(rest, reducef)
  {
    var first := Line(key, reducef(key, Values(run)));
    KeysOfConcat(run, rest);
    assert run[0].key == key;
    assert KeysOf(run) == {key};
    ValuesForRun(run, key);
    ValuesForNone(rest, key);
    hide KeysOf, Lines, ValuesFor, Values;
    forall line ensures line in Lines(run + rest, reducef) <==> line == first || line in Lines(rest, reducef) {
      InLines(run + rest, reducef, line);
      InLines(rest, reducef, line);
      ValuesForConcat(run, rest, line.key);
      if line.key in KeysOf(rest) {
        ValuesForNone(run, line.key);
        assert ValuesFor(run + rest, line.key) == ValuesFor(rest, line.key);
      } else if line.key == key {
        assert ValuesFor(run + rest, key) == Values(run);
      }
    }
    InLines(rest, reducef, first);
  }

  /** Sorted pairs are grouped into exactly one line for every key. */
  lemma {:induction false} GroupsAreLines(kva: seq<KeyValue>, reducef: ReduceFunction)
    requires SortedBy(kva, ByKey)
    ensures multiset(Groups(kva, reducef)) == multiset(Lines(kva, reducef))
    decreases |kva|
  {
    if kva == [] {
      assert Lines(kva, reducef) == {};
    } else {
      var n := RunLength(kva, kva[0].key);
      var run, rest := kva[..n], kva[n..];
      assert kva == run + rest && n > 0;
      hide SortedBy, Lines, KeysOf;
      RunIsOver(kva, n);
      GroupsAreLines(rest, reducef);
      LinesOfRun(run, rest, kva[0].key, reducef);
    }
  }

  /** However equal keys are ordered by the sort, the lines are those of the pairs. */
  lemma {:induction false} SortedGroups(kva: seq<KeyValue>, sorted: seq<KeyValue>, reducef: ReduceFunction)
    requires OrderFree(reducef) && SortedBy(sorted, ByKey) && multiset(sorted) == multiset(kva)
    ensures multiset(Groups(sorted, reducef)) == multiset(Lines(kva, reducef))
  {
    GroupsAreLines(sorted, reducef);
    LinesRearranged(sorted, kva, reducef);
  }

  // ----- Buckets

  type Hash = string -> nat

  /** The pairs that go to bucket r of n. */
  function Bucket(kva: seq<KeyValue>, hash: Hash, n: nat, r: nat): seq<KeyValue>
    requires n > 0
  {
    if kva == [] then [] else
      var kv := kva[|kva| - 1];
      Bucket(kva[..|kva| - 1], hash, n, r) + if hash(kv.key) % n == r then [kv] else []
  }

  function Concat<T>(parts: seq<seq<T>>): seq<T> {
    if parts == [] then [] else Concat(parts[..|parts| - 1]) + parts[|parts| - 1]
  }

  function BucketOfEach(parts: seq<seq<KeyValue>>, hash: Hash, n: nat, r: nat): (b: seq<seq<KeyValue>>)
    requires n > 0
    ensures |b| == |parts| && forall m :: 0 <= m < |b| ==> b[m] == Bucket(parts[m], hash, n, r)
  {
    seq(|parts|, m requires 0 <= m < |parts| => Bucket(parts[m], hash, n, r))
  }

  lemma {:induction false} BucketConcat(a: seq<KeyValue>, b: seq<KeyValue>, hash: Hash, n: nat, r: nat)
    requires n > 0
    ensures Bucket(a + b, hash, n, r) == Bucket(a, hash, n, r) + Bucket(b, hash, n, r)
  {
    if b == [] {
      assert a + b == a;
    } else {
      assert (a + b)[..|a + b| - 1] == a + b[..|b| - 1];
      BucketConcat(a, b[..|b| - 1], hash, n, r);
    }
  }

  /** Bucketing each part and concatenating is concatenating and bucketing. */
  lemma {:induction false} BucketOfAll(parts: seq<seq<KeyValue>>, hash: Hash, n: nat, r: nat)
    requires n > 0
    ensures Concat(BucketOfEach(parts, hash, n, r)) == Bucket(Concat(parts), hash, n, r)
  {
    if parts != [] {
      var front := parts[..|parts| - 1];
      BucketOfAll(front, hash, n, r);
      assert BucketOfEach(parts, hash, n, r)[..|parts| - 1] == BucketOfEach(front, hash, n, r);
      BucketConcat(Concat(front), parts[|parts| - 1], hash, n, r);
    }
  }

  lemma {:induction false} BucketKeys(kva: seq<KeyValue>, hash: Hash, n: nat, r: nat, key: string)
    requires n > 0
    ensures key in KeysOf(Bucket(kva, hash, n, r)) <==> key in KeysOf(kva) && hash(key) % n == r
    ensures hash(key) % n == r ==> ValuesFor(Bucket(kva, hash, n, r), key) == ValuesFor(kva, key)
  {
    if kva != [] {
      var front, kv := kva[..|kva| - 1], kva[|kva| - 1];
      BucketKeys(front, hash, n, r, key);
      assert kva == front + [kv];
      assert ValuesFor(kva, key) == ValuesFor(front, key) + if kv.key == key then [kv.value] else [];
      KeysOfMore(front, kv);
      var before := Bucket(front, hash, n, r);
      if hash(kv.key) % n == r {
        KeysOfMore(before, kv);
        assert (before + [kv])[..|before|] == before;
        assert ValuesFor(before + [kv], key) == ValuesFor(before, key) + if kv.key == key then [kv.value] else [];
      } else {
        assert hash(key) % n == r ==> kv.key != key;
        assert Bucket(kva, hash, n, r) == before;
      }
    }
  }

  lemma KeysOfMore(kva: seq<KeyValue>, kv: KeyValue)
    ensures KeysOf(kva + [kv]) == KeysOf(kva) + {kv.key}
  {
    var more := kva + [kv];
    forall x ensures x in KeysOf(more) <==> x in KeysOf(kva) || x == kv.key {
      if i :| 0 <= i < |kva| && kva[i].key == x { assert more[i].key == x; }
      assert more[|kva|].key == kv.key;
    }
  }

  /** The lines whose keys go to the first r buckets. */
  function LinesBelow(kva: seq<KeyValue>, reducef: ReduceFunction, hash: Hash, n: nat, r: nat): set<Line>
    requires n > 0
  {
    set line | line in Lines(kva, reducef) && hash(line.key) % n < r
  }

  lemma NextBucket(kva: seq<KeyValue>, reducef: ReduceFunction, hash: Hash, n: nat, r: nat)
    requires r < n
    ensures LinesBelow(kva, reducef, hash, n, r) !! Lines(Bucket(kva, hash, n, r), reducef)
    ensures LinesBelow(kva, reducef, hash, n, r + 1)
         == LinesBelow(kva, reducef, hash, n, r) + Lines(Bucket(kva, hash, n, r), reducef)
  {
    forall key ensures key in KeysOf(Bucket(kva, hash, n, r)) <==> key in KeysOf(kva) && hash(key) % n == r
               ensures hash(key) % n == r ==> ValuesFor(Bucket(kva, hash, n, r), key) == ValuesFor(kva, key)
    {
      BucketKeys(kva, hash, n, r, key);
    }
  }

  /** The outputs of all buckets together are the lines of all pairs. */
  lemma {:induction false} AllBuckets(kva: seq<KeyValue>, reducef: ReduceFunction, hash: Hash, n: nat, outs: seq<seq<Line>>)
    requires |outs| <= n && n > 0
    requires forall r: nat :: r < |outs| ==> multiset(outs[r]) == multiset(Lines(Bucket(kva, hash, n, r), reducef))
    ensures multiset(Concat(outs)) == multiset(LinesBelow(kva, reducef, hash, n, |outs|))
  {
    if outs == [] {
      assert LinesBelow(kva, reducef, hash, n, 0) == {};
    } else {
      var r := |outs| - 1;
      AllBuckets(kva, reducef, hash, n, outs[..r]);
      NextBucket(kva, reducef, hash, n, r);
    }
  }

  /** For any hash and any number of buckets: bucketing what each map task emits, and sorting and
      grouping each bucket by itself, gives the lines of one sort and one grouping of everything. */
  lemma {:induction false} BucketedEqualsSequential(
      parts: seq<seq<KeyValue>>, reducef: ReduceFunction, hash: Hash, n: nat,
      sortedBuckets: seq<seq<KeyValue>>, outs: seq<seq<Line>>, sortedAll: seq<KeyValue>)
    requires n > 0 && OrderFree(reducef) && |sortedBuckets| == |outs| == n
    requires forall r: nat :: r < n ==>
               && SortedBy(sortedBuckets[r], ByKey)
               && multiset(sortedBuckets[r]) == multiset(Concat(BucketOfEach(parts, hash, n, r)))
               && outs[r] == Groups(sortedBuckets[r], reducef)
    requires SortedBy(sortedAll, ByKey) && multiset(sortedAll) == multiset(Concat(parts))
    ensures multiset(Concat(outs)) == multiset(Groups(sortedAll, reducef))
  {
    var all := Concat(parts);
    forall r: nat | r < n ensures multiset(outs[r]) == multiset(Lines(Bucket(all, hash, n, r), reducef)) {
      BucketOfAll(parts, hash, n, r);
      SortedGroups(Bucket(all, hash, n, r), sortedBuckets[r], reducef);
    }
    AllBuckets(all, reducef, hash, n, outs);
    SortedGroups(all, sortedAll, reducef);
    assert LinesBelow(all, reducef, hash, n, n) == Lines(all, reducef);
  }
}
