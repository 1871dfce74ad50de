/** The sequential key/value store that histories are checked against, and its split by key. */
module KvModel {
  import opened Linearizability
  import opened Locality
  import opened Sorting

  newtype uint8 = x: int | 0 <= x < 256

  /** op: 0 for get, 1 for put, anything else for append. */
  datatype KvInput = KvInput(op: uint8, key: string, value: string)
  datatype KvOutput = KvOutput(value: string)

  type KvOperation = Operation<KvInput, KvOutput>

  function Step(state: string, inp: KvInput, out: KvOutput): (bool, string) {
    if inp.op == 0 then
      (out.value == state, state)
    else if inp.op == 1 then
      (true, inp.value)
    else
      (true, state + inp.value)
  }

  /** One key's value. */
  function Single(): Model<string, KvInput, KvOutput> {
    Model("", Step)
  }

  function Key(inp: KvInput): string {
    inp.key
  }

  /** The whole store: a value for every key, the empty string at first. */
  function Store(): Model<map<string, string>, KvInput, KvOutput> {
    Product(Single(), Key)
  }

  /** One step of the store is a step of the value under the key. */
  lemma StoreStep(values: map<string, string>, inp: KvInput, out: KvOutput)
    ensures var (ok, value) := Step(Lookup(values, inp.key, ""), inp, out);
            Store().step(values, inp, out) == (ok, values[inp.key := value])
  {
    assert Key(inp) == inp.key;
    assert Single().step == Step && Single().init == "";
    assert Store().step(values, inp, out) == var (ok, value) := Step(Lookup(values, Key(inp), ""), inp, out);
                                             (ok, values[Key(inp) := value]);
  }

  /** The keys in dictionary order, whatever order they are found in. */
  method SortedKeys(keys: set<string>) returns (sorted: seq<string>)
    ensures Distinct(sorted) && SortedBy(sorted, AtMost) && forall k :: k in sorted <==> k in keys
  {
    var found: seq<string> := [];
    var rest := keys;
    while rest != {}
      invariant rest <= keys && Distinct(found)
      invariant forall k :: k in found <==> k in keys && k !in rest
      decreases rest
    {
      var k :| k in rest;
      found, rest := found + [k], rest - {k};
    }
    AtMostIsOrder();
    sorted := Sort(found, AtMost);
    SameMembers(found, sorted);
  }

  /** Splits a history by key, the keys in dictionary order. */
  method Partition(history: seq<KvOperation>) returns (ret: seq<seq<KvOperation>>, ghost keys: seq<string>)
    ensures |ret| == |keys| && Distinct(keys) && SortedBy(keys, AtMost)
    ensures forall k :: k in keys <==> exists i :: 0 <= i < |history| && history[i].input.key == k
    ensures forall i :: 0 <= i < |keys| ==> ret[i] == Only(history, Key, keys[i])
  {
    var m: map<string, seq<KvOperation>> := map[];
    for i := 0 to |history|
      invariant forall k :: k in m ==> m[k] == Only(history[..i], Key, k)
      invariant forall k :: k in m <==> exists j :: 0 <= j < i && history[j].input.key == k
      invariant forall k :: k !in m ==> Only(history[..i], Key, k) == []
    {
      var v := history[i];
      var key := v.input.key;
      assert history[..i + 1] == history[..i] + [v];
      forall k ensures Only(history[..i + 1], Key, k) == if key == k then Only(history[..i], Key, k) + [v] else Only(history[..i], Key, k) {
        OnlyLast(history[..i], v, Key, k);
      }
      m := m[key := (if key in m then m[key] else []) + [v]];
    }
    assert history[..|history|] == history;
    var sorted := SortedKeys(m.Keys);
    ret := [];
    for i := 0 to |sorted|
      invariant |ret| == i && forall j :: 0 <= j < i ==> ret[j] == Only(history, Key, sorted[j])
    {
      ret := ret + [m[sorted[i]]];
    }
    keys := sorted;
  }

  /** The store's history is linearizable exactly when every part of it is, each as one key's value. */
  lemma {:induction false} PartitionIsSound(history: seq<KvOperation>, parts: seq<seq<KvOperation>>, keys: seq<string>)
    requires Timed(history)
    requires |parts| == |keys| && forall i :: 0 <= i < |keys| ==> parts[i] == Only(history, Key, keys[i])
    requires forall k :: k in keys <==> exists i :: 0 <= i < |history| && history[i].input.key == k
    ensures Linearizable(Store(), history) <==> forall i :: 0 <= i < |parts| ==> Linearizable(Single(), parts[i])
  {
    var ks := set k | k in keys;
    forall o | o in history ensures Key(o.input) in ks {
      var i :| 0 <= i < |history| && history[i] == o;
    }
    LinearizableIsLocal(Single(), Key, history, ks);
    if forall i :: 0 <= i < |parts| ==> Linearizable(Single(), parts[i]) {
      forall k | k in ks ensures Linearizable(Single(), Only(history, Key, k)) {
        var i :| 0 <= i < |keys| && keys[i] == k;
        assert Linearizable(Single(), parts[i]);
      }
    }
    if forall k :: k in ks ==> Linearizable(Single(), Only(history, Key, k)) {
      forall i | 0 <= i < |parts| ensures Linearizable(Single(), parts[i]) {
        assert keys[i] in ks;
      }
    }
  }
}
