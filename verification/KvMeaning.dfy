/** What the sequential key/value store allows, said without running it: a get gives the key's last put
    followed by everything appended since. */
module KvMeaning {
  import opened Linearizability
  import opened Locality
  import opened KvModel

  predicate Writes(o: KvOperation, key: string) {
    o.input.key == key && o.input.op != 0
  }

  predicate Puts(o: KvOperation, key: string) {
    o.input.key == key && o.input.op == 1
  }

  /** Everything written to the key, one after the other. */
  function Written(order: seq<KvOperation>, key: string): string {
    if order == [] then "" else
      Written(order[..|order| - 1], key) + if Writes(order[|order| - 1], key) then order[|order| - 1].input.value else ""
  }

  ghost predicate LastPut(order: seq<KvOperation>, key: string, p: nat) {
    p < |order| && Puts(order[p], key) && forall i :: p < i < |order| ==> !Puts(order[i], key)
  }

  ghost predicate NeverPut(order: seq<KvOperation>, key: string) {
    forall i :: 0 <= i < |order| ==> !Puts(order[i], key)
  }

  /** The text is what was written to the key from its last put on, or all that was if there is none. */
  ghost predicate Holds(order: seq<KvOperation>, key: string, text: string) {
    if NeverPut(order, key) then text == Written(order, key)
    else exists p: nat :: LastPut(order, key, p) && text == Written(order[p..], key)
  }

  lemma WrittenMore(order: seq<KvOperation>, o: KvOperation, key: string)
    ensures Written(order + [o], key) == Written(order, key) + if Writes(o, key) then o.input.value else ""
  {
    assert (order + [o])[..|order|] == order;
  }

  /** A key holds one text. */
  lemma HoldsOne(order: seq<KvOperation>, key: string, a: string, b: string)
    requires Holds(order, key, a) && Holds(order, key, b)
    ensures a == b
  {
  }

  /** A put, an append, and anything else. */
  lemma HoldsAfter(order: seq<KvOperation>, o: KvOperation, key: string, text: string)
    requires Holds(order, key, text)
    ensures Holds(order + [o], key,
                  if Puts(o, key) then o.input.value else if Writes(o, key) then text + o.input.value else text)
  {
    var more := order + [o];
    assert forall i :: 0 <= i < |order| ==> more[i] == order[i];
    if Puts(o, key) {
      assert LastPut(more, key, |order|);
      assert more[|order|..] == [o];
      WrittenMore([], o, key);
      assert [] + [o] == [o] && "" + o.input.value == o.input.value;
    } else if NeverPut(order, key) {
      assert NeverPut(more, key);
      WrittenMore(order, o, key);
    } else {
      var p: nat :| LastPut(order, key, p) && text == Written(order[p..], key);
      assert LastPut(more, key, p) && more[p..] == order[p..] + [o];
      WrittenMore(order[p..], o, key);
    }
  }

  /** Every get in the order gives what its key holds there. */
  ghost predicate GetsRight(order: seq<KvOperation>) {
    forall i :: 0 <= i < |order| && order[i].input.op == 0 ==> Holds(order[..i], order[i].input.key, order[i].output.value)
  }

  lemma GetsRightLast(order: seq<KvOperation>, o: KvOperation)
    ensures GetsRight(order + [o])
       <==> GetsRight(order) && (o.input.op == 0 ==> Holds(order, o.input.key, o.output.value))
  {
    var more := order + [o];
    assert forall i :: 0 <= i < |order| ==> more[i] == order[i] && more[..i] == order[..i];
    assert more[|order|] == o && more[..|order|] == order;
  }

  /** The store holds the texts. */
  ghost predicate Shows(order: seq<KvOperation>, values: map<string, string>) {
    forall key :: Holds(order, key, Lookup(values, key, ""))
  }

  lemma StepShows(order: seq<KvOperation>, o: KvOperation, values: map<string, string>)
    requires Shows(order, values)
    ensures var (ok, values') := Store().step(values, o.input, o.output);
            && (ok <==> (o.input.op == 0 ==> Holds(order, o.input.key, o.output.value)))
            && (ok ==> Shows(order + [o], values'))
  {
    StoreStep(values, o.input, o.output);
    var (ok, values') := Store().step(values, o.input, o.output);
    var key := o.input.key;
    assert Holds(order, key, Lookup(values, key, ""));
    if o.input.op == 0 && Holds(order, key, o.output.value) {
      HoldsOne(order, key, Lookup(values, key, ""), o.output.value);
    }
    hide Holds;
    forall k ensures Holds(order + [o], k, Lookup(values', k, "")) {
      assert Holds(order, k, Lookup(values, k, ""));
      HoldsAfter(order, o, k, Lookup(values, k, ""));
    }
  }

  /** The store accepts an order of operations exactly when every get in it gives the last put of its key
      followed by what was appended since. */
  lemma {:induction false} LegalExactly(order: seq<KvOperation>)
    ensures Run(Store(), order).Some? <==> GetsRight(order)
    ensures Run(Store(), order).Some? ==> Shows(order, Run(Store(), order).value)
  {
    if order == [] {
      forall key ensures Holds([], key, "") { assert NeverPut([], key); }
    } else {
      var front, o := order[..|order| - 1], order[|order| - 1];
      assert order == front + [o];
      LegalExactly(front);
      RunLast(Store(), front, o);
      GetsRightLast(front, o);
      hide GetsRight, Shows, Holds, Run;
      if Run(Store(), front).Some? {
        StepShows(front, o, Run(Store(), front).value);
      }
    }
  }
}
