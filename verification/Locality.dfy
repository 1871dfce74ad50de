/** Linearizability is local: a history of operations on many objects is linearizable exactly when
    the operations on each object are. */
module Locality {
  import opened Linearizability

  /** The operations on one object, in their order. */
  function Only<K(==), I, O>(order: seq<Operation<I, O>>, key: I -> K, k: K): seq<Operation<I, O>> {
    if order == [] then
      []
    else
      var rest := Only(order[..|order| - 1], key, k);
      if key(order[|order| - 1].input) == k then rest + [order[|order| - 1]] else rest
  }

  function Lookup<K(==), S>(states: map<K, S>, k: K, default: S): S {
    if k in states then states[k] else default
  }

  /** One copy of the model per object. */
  function Product<K(==), S, I, O>(m: Model<S, I, O>, key: I -> K): Model<map<K, S>, I, O> {
    Model(map[], (states: map<K, S>, input: I, output: O) =>
      var (ok, s') := m.step(Lookup(states, key(input), m.init), input, output);
      (ok, states[key(input) := s']))
  }

  lemma {:induction false} OnlyLast<K, I, O>(order: seq<Operation<I, O>>, op: Operation<I, O>, key: I -> K, k: K)
    ensures Only(order + [op], key, k) == if key(op.input) == k then Only(order, key, k) + [op] else Only(order, key, k)
  {
    assert (order + [op])[..|order|] == order;
  }

  lemma {:induction false} RunLast<S, I, O>(m: Model<S, I, O>, order: seq<Operation<I, O>>, op: Operation<I, O>)
    ensures Run(m, order + [op]) == match Run(m, order)
                                    case None => None
                                    case Some(s) => var (ok, s') := m.step(s, op.input, op.output);
                                                    if ok then Some(s') else None
  {
    assert (order + [op])[..|order|] == order;
  }

  ghost predicate EachRuns<K(!new), S, I, O>(m: Model<S, I, O>, key: I -> K, order: seq<Operation<I, O>>) {
    forall k :: Run(m, Only(order, key, k)).Some?
  }

  /** Running all objects together is running each one by itself. */
  lemma {:induction false} RunProduct<K(!new), S, I, O>(m: Model<S, I, O>, key: I -> K, order: seq<Operation<I, O>>)
    ensures Run(Product(m, key), order).Some? <==> EachRuns(m, key, order)
    ensures Run(Product(m, key), order).Some? ==>
              forall k :: Run(m, Only(order, key, k)) == Some(Lookup(Run(Product(m, key), order).value, k, m.init))
  {
    if order != [] {
      var front, op := order[..|order| - 1], order[|order| - 1];
      assert order == front + [op];
      RunProduct(m, key, front);
      RunLast(Product(m, key), front, op);
      forall k
        ensures Only(order, key, k) == if key(op.input) == k then Only(front, key, k) + [op] else Only(front, key, k)
      {
        OnlyLast(front, op, key, k);
      }
      var k0 := key(op.input);
      RunLast(m, Only(front, key, k0), op);
      if EachRuns(m, key, order) {
        forall k ensures Run(m, Only(front, key, k)).Some? {
          assert Run(m, Only(order, key, k)).Some?;
        }
        assert Run(m, Only(order, key, k0)).Some?;
        assert Run(Product(m, key), front).Some?;
        assert Run(m, Only(front, key, k0)) == Some(Lookup(Run(Product(m, key), front).value, k0, m.init));
        assert Run(Product(m, key), order).Some?;
      }
      if Run(Product(m, key), order).Some? {
        var states, states' := Run(Product(m, key), front).value, Run(Product(m, key), order).value;
        forall k
          ensures Run(m, Only(order, key, k)).Some?
          ensures Run(m, Only(order, key, k)) == Some(Lookup(states', k, m.init))
        {
          assert Run(m, Only(front, key, k)) == Some(Lookup(states, k, m.init));
        }
      }
    }
  }

  // ----- From a linearization of everything to one of each object

  lemma {:induction false} OnlyMultiset<K, I, O>(order: seq<Operation<I, O>>, key: I -> K, k: K, op: Operation<I, O>)
    ensures multiset(Only(order, key, k))[op] == if key(op.input) == k then multiset(order)[op] else 0
  {
    if order != [] {
      var front, last := order[..|order| - 1], order[|order| - 1];
      assert order == front + [last];
      OnlyMultiset(front, key, k, op);
    }
  }

  lemma {:induction false} OnlyKeepsMultiset<K, I(!new), O(!new)>(s: seq<Operation<I, O>>, t: seq<Operation<I, O>>, key: I -> K, k: K)
    requires multiset(s) == multiset(t)
    ensures multiset(Only(s, key, k)) == multiset(Only(t, key, k))
  {
    var a, b := multiset(Only(s, key, k)), multiset(Only(t, key, k));
    forall op: Operation<I, O> ensures a[op] == b[op] {
      OnlyMultiset(s, key, k, op);
      OnlyMultiset(t, key, k, op);
    }
    assert a == b;
  }

  lemma {:induction false} OnlyIn<K, I, O>(order: seq<Operation<I, O>>, key: I -> K, k: K, op: Operation<I, O>)
    ensures op in Only(order, key, k) <==> op in order && key(op.input) == k
  {
    OnlyMultiset(order, key, k, op);
    assert op in Only(order, key, k) <==> op in multiset(Only(order, key, k));
    assert op in order <==> op in multiset(order);
  }

  /** Nothing before the operation in the order needed to come after it. */
  ghost predicate MayEnd<I, O>(order: seq<Operation<I, O>>, op: Operation<I, O>) {
    forall o :: o in order ==> !(op.ret < o.call)
  }

  lemma RealTimeLast<I, O>(order: seq<Operation<I, O>>, op: Operation<I, O>)
    ensures RealTime(order + [op]) <==> RealTime(order) && MayEnd(order, op)
  {
    var longer := order + [op];
    if RealTime(longer) {
      forall i, j | 0 <= i < j < |order| ensures !(order[j].ret < order[i].call) {
        assert longer[i] == order[i] && longer[j] == order[j];
      }
      forall o | o in order ensures !(op.ret < o.call) {
        var i :| 0 <= i < |order| && order[i] == o;
        assert longer[i] == o && longer[|order|] == op;
      }
    }
  }

  lemma {:induction false} OnlyKeepsRealTime<K, I(!new), O(!new)>(order: seq<Operation<I, O>>, key: I -> K, k: K)
    requires RealTime(order)
    ensures RealTime(Only(order, key, k))
  {
    if order != [] {
      var front, op := order[..|order| - 1], order[|order| - 1];
      assert order == front + [op];
      RealTimeLast(front, op);
      OnlyKeepsRealTime(front, key, k);
      RealTimeLast(Only(front, key, k), op);
      forall o | o in Only(front, key, k) ensures o in front { OnlyIn(front, key, k, o); }
    }
  }

  lemma {:induction false} Projects<K(!new), S, I(!new), O(!new)>(m: Model<S, I, O>, key: I -> K, ops: seq<Operation<I, O>>, k: K)
    requires Linearizable(Product(m, key), ops)
    ensures Linearizable(m, Only(ops, key, k))
  {
    var order :| Linearization(Product(m, key), ops, order);
    OnlyKeepsMultiset(order, ops, key, k);
    OnlyKeepsRealTime(order, key, k);
    RunProduct(m, key, order);
    assert Linearization(m, Only(ops, key, k), Only(order, key, k));
  }

  // ----- From linearizations of the objects to one of everything

  /** Interleaves two orders from the back: the last operation of the first goes last unless it has
      returned before something in the second was called. */
  ghost function Merge<I(!new), O(!new)>(a: seq<Operation<I, O>>, b: seq<Operation<I, O>>): seq<Operation<I, O>>
    decreases |a| + |b|
  {
    if a == [] then b
    else if b == [] then a
    else if MayEnd(b, a[|a| - 1]) then Merge(a[..|a| - 1], b) + [a[|a| - 1]]
    else Merge(a, b[..|b| - 1]) + [b[|b| - 1]]
  }

  lemma {:induction false} MergeMultiset<I(!new), O(!new)>(a: seq<Operation<I, O>>, b: seq<Operation<I, O>>)
    ensures multiset(Merge(a, b)) == multiset(a) + multiset(b)
    decreases |a| + |b|
  {
    if a != [] && b != [] {
      assert a == a[..|a| - 1] + [a[|a| - 1]] && b == b[..|b| - 1] + [b[|b| - 1]];
      if MayEnd(b, a[|a| - 1]) {
        MergeMultiset(a[..|a| - 1], b);
      } else {
        MergeMultiset(a, b[..|b| - 1]);
      }
    }
  }

  /** If the end of the first order cannot go last, then the end of the second can. */
  lemma OneMayEnd<I(!new), O(!new)>(a: seq<Operation<I, O>>, b: seq<Operation<I, O>>)
    requires a != [] && b != [] && RealTime(a) && RealTime(b) && Timed(a) && Timed(b)
    requires !MayEnd(b, a[|a| - 1])
    ensures MayEnd(a, b[|b| - 1])
  {
    var x, y := a[|a| - 1], b[|b| - 1];
    var z :| z in b && x.ret < z.call;
    var l :| 0 <= l < |b| && b[l] == z;
    assert z.call <= y.ret;
    forall w | w in a ensures !(y.ret < w.call) {
      var k :| 0 <= k < |a| && a[k] == w;
      assert w.call <= x.ret;
    }
  }

  lemma {:induction false} MergeRealTime<I(!new), O(!new)>(a: seq<Operation<I, O>>, b: seq<Operation<I, O>>)
    requires RealTime(a) && RealTime(b) && Timed(a) && Timed(b)
    ensures RealTime(Merge(a, b))
    decreases |a| + |b|
  {
    if a != [] && b != [] {
      var x, y, a', b' := a[|a| - 1], b[|b| - 1], a[..|a| - 1], b[..|b| - 1];
      assert a == a' + [x] && b == b' + [y];
      RealTimeLast(a', x);
      RealTimeLast(b', y);
      if MayEnd(b, x) {
        MergeRealTime(a', b);
        MergeIn(a', b);
        RealTimeLast(Merge(a', b), x);
      } else {
        OneMayEnd(a, b);
        MergeRealTime(a, b');
        MergeIn(a, b');
        RealTimeLast(Merge(a, b'), y);
      }
    }
  }

  lemma {:induction false} MergeIn<I(!new), O(!new)>(a: seq<Operation<I, O>>, b: seq<Operation<I, O>>)
    ensures forall o :: o in Merge(a, b) <==> o in a || o in b
  {
    MergeMultiset(a, b);
    forall o ensures o in Merge(a, b) <==> o in a || o in b {
      assert o in Merge(a, b) <==> o in multiset(Merge(a, b));
    }
  }

  /** Orders of different objects pass through a merge unchanged. */
  lemma {:induction false} MergeOnly<K, I(!new), O(!new)>(a: seq<Operation<I, O>>, b: seq<Operation<I, O>>, key: I -> K, k: K)
    ensures Only(b, key, k) == [] ==> Only(Merge(a, b), key, k) == Only(a, key, k)
    ensures Only(a, key, k) == [] ==> Only(Merge(a, b), key, k) == Only(b, key, k)
    decreases |a| + |b|
  {
    if a != [] && b != [] {
      var x, y, a', b' := a[|a| - 1], b[|b| - 1], a[..|a| - 1], b[..|b| - 1];
      assert a == a' + [x] && b == b' + [y];
      OnlyLast(a', x, key, k);
      OnlyLast(b', y, key, k);
      if MayEnd(b, x) {
        MergeOnly(a', b, key, k);
        OnlyLast(Merge(a', b), x, key, k);
      } else {
        MergeOnly(a, b', key, k);
        OnlyLast(Merge(a, b'), y, key, k);
      }
    }
  }

  /** An order of the operations on some of the objects. */
  ghost predicate PartialOrder<K(!new), S, I, O>(m: Model<S, I, O>, key: I -> K, ops: seq<Operation<I, O>>, keys: set<K>, order: seq<Operation<I, O>>) {
    && RealTime(order)
    && (forall k :: k in keys ==> multiset(Only(order, key, k)) == multiset(Only(ops, key, k)) && Run(m, Only(order, key, k)).Some?)
    && (forall k :: k !in keys ==> Only(order, key, k) == [])
  }

  lemma TimedIn<I(!new), O(!new)>(s: seq<Operation<I, O>>)
    ensures Timed(s) <==> forall o :: o in s ==> o.call < o.ret
  {
    if Timed(s) {
      forall o | o in s ensures o.call < o.ret {
        var i :| 0 <= i < |s| && s[i] == o;
      }
    }
  }

  lemma AllTimed<K(!new), S, I(!new), O(!new)>(m: Model<S, I, O>, key: I -> K, ops: seq<Operation<I, O>>, keys: set<K>,
                                                               order: seq<Operation<I, O>>)
    requires Timed(ops) && PartialOrder(m, key, ops, keys, order)
    ensures Timed(order)
  {
    TimedIn(ops);
    forall o | o in order ensures o.call < o.ret {
      var k := key(o.input);
      OnlyIn(order, key, k, o);
      if k in keys {
        assert o in multiset(Only(order, key, k));
        assert o in Only(ops, key, k);
        OnlyIn(ops, key, k, o);
      }
    }
    TimedIn(order);
  }

  lemma Combine<K(!new), S, I(!new), O(!new)>(m: Model<S, I, O>, key: I -> K, ops: seq<Operation<I, O>>, keys: set<K>)
    returns (order: seq<Operation<I, O>>)
    requires Timed(ops) && forall k :: k in keys ==> Linearizable(m, Only(ops, key, k))
    ensures PartialOrder(m, key, ops, keys, order)
    decreases keys
  {
    if keys == {} {
      order := [];
    } else {
      var k :| k in keys;
      var rest := Combine(m, key, ops, keys - {k});
      AllTimed(m, key, ops, keys - {k}, rest);
      var own :| Linearization(m, Only(ops, key, k), own);
      OwnOrder(m, key, ops, k, own);
      AllTimed(m, key, ops, {k}, own);
      order := Merge(own, rest);
      MergeRealTime(own, rest);
      forall k' { MergeOnly(own, rest, key, k'); }
    }
  }

  /** A linearization of one object's operations holds nothing else. */
  lemma {:induction false} OwnOrder<K(!new), S, I(!new), O(!new)>(m: Model<S, I, O>, key: I -> K, ops: seq<Operation<I, O>>, k: K, own: seq<Operation<I, O>>)
    requires Linearization(m, Only(ops, key, k), own)
    ensures PartialOrder(m, key, ops, {k}, own)
  {
    forall o | o in own ensures key(o.input) == k {
      assert o in multiset(own);
      assert o in Only(ops, key, k);
      OnlyIn(ops, key, k, o);
    }
    AllOwn(own, key, k);
    forall k' | k' != k ensures Only(own, key, k') == [] {
      NoneOwn(own, key, k');
    }
  }

  lemma {:induction false} AllOwn<K, I, O>(s: seq<Operation<I, O>>, key: I -> K, k: K)
    requires forall o :: o in s ==> key(o.input) == k
    ensures Only(s, key, k) == s
  {
    if s != [] {
      AllOwn(s[..|s| - 1], key, k);
      assert s == s[..|s| - 1] + [s[|s| - 1]];
    }
  }

  lemma {:induction false} NoneOwn<K, I, O>(s: seq<Operation<I, O>>, key: I -> K, k: K)
    requires forall o :: o in s ==> key(o.input) != k
    ensures Only(s, key, k) == []
  {
    if s != [] {
      NoneOwn(s[..|s| - 1], key, k);
    }
  }

  /** The locality theorem. */
  lemma {:induction false} LinearizableIsLocal<K(!new), S, I(!new), O(!new)>(m: Model<S, I, O>, key: I -> K, ops: seq<Operation<I, O>>, keys: set<K>)
    requires Timed(ops) && forall o :: o in ops ==> key(o.input) in keys
    ensures Linearizable(Product(m, key), ops) <==> forall k :: k in keys ==> Linearizable(m, Only(ops, key, k))
  {
    if Linearizable(Product(m, key), ops) {
      forall k | k in keys ensures Linearizable(m, Only(ops, key, k)) { Projects(m, key, ops, k); }
    }
    if forall k :: k in keys ==> Linearizable(m, Only(ops, key, k)) {
      var order := Combine(m, key, ops, keys);
      forall op ensures multiset(order)[op] == multiset(ops)[op] {
        var k := key(op.input);
        OnlyMultiset(order, key, k, op);
        OnlyMultiset(ops, key, k, op);
        if k !in keys { NoneOwn(ops, key, k); }
      }
      RunProduct(m, key, order);
      forall k ensures Run(m, Only(order, key, k)).Some? {
        if k !in keys { assert Only(order, key, k) == []; }
      }
      assert Linearization(Product(m, key), ops, order);
    }
  }
}
