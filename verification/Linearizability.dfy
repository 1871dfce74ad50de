/** What it means for a history to be linearizable: the specification that the checker decides,
    that the replicated service meets, and that splitting by key preserves. */
module Linearizability {

  datatype Option<+T> = None | Some(value: T)

  /** A completed operation: what was asked, when, what was answered, and when. */
  datatype Operation<I, O> = Operation(input: I, call: int, output: O, ret: int)

  /** A sequential object: its first state, and whether a step with this input and output is
      possible together with the state it leads to. */
  datatype Model<!S, !I, !O> = Model(init: S, step: (S, I, O) -> (bool, S))

  /** The state reached by performing the operations one after another, if every step is possible. */
  function Run<S, I, O>(m: Model<S, I, O>, order: seq<Operation<I, O>>): Option<S>
  {
    if order == [] then
      Some(m.init)
    else
      var last := order[|order| - 1];
      match Run(m, order[..|order| - 1])
      case None => None
      case Some(s) =>
        var (ok, s') := m.step(s, last.input, last.output);
        if ok then Some(s') else None
  }

  /** No operation comes after one that was only called once it had returned. */
  ghost predicate RealTime<I, O>(order: seq<Operation<I, O>>) {
    forall i, j :: 0 <= i < j < |order| ==> !(order[j].ret < order[i].call)
  }

  ghost predicate Linearization<S, I, O>(m: Model<S, I, O>, ops: seq<Operation<I, O>>, order: seq<Operation<I, O>>) {
    && multiset(order) == multiset(ops)
    && RealTime(order)
    && Run(m, order).Some?
  }

  ghost predicate Linearizable<S, I(!new), O(!new)>(m: Model<S, I, O>, ops: seq<Operation<I, O>>) {
    exists order :: Linearization(m, ops, order)
  }

  /** Every operation is called before it returns. */
  ghost predicate Timed<I, O>(ops: seq<Operation<I, O>>) {
    forall i :: 0 <= i < |ops| ==> ops[i].call < ops[i].ret
  }

  // ----- Orders given by operation ids

  ghost predicate Distinct<T>(s: seq<T>) {
    forall i, j :: 0 <= i < j < |s| ==> s[i] != s[j]
  }

  ghost predicate ValidIds(ids: seq<nat>, n: nat) {
    forall i :: 0 <= i < |ids| ==> ids[i] < n
  }

  ghost predicate IsPermutation(ids: seq<nat>, n: nat) {
    |ids| == n && ValidIds(ids, n) && Distinct(ids)
  }

  function Pick<T>(s: seq<T>, ids: seq<nat>): (r: seq<T>)
    requires forall i :: 0 <= i < |ids| ==> ids[i] < |s|
    ensures |r| == |ids| && forall i :: 0 <= i < |ids| ==> r[i] == s[ids[i]]
  {
    seq(|ids|, i requires 0 <= i < |ids| => s[ids[i]])
  }

  /** The ids of n operations. */
  function Ids(n: nat): (r: set<nat>)
    ensures forall x: nat :: x in r <==> x < n
    ensures |r| == n
  {
    if n == 0 then {} else Ids(n - 1) + {n - 1}
  }

  lemma DistinctSize(ids: seq<nat>, n: nat)
    requires ValidIds(ids, n) && Distinct(ids)
    ensures |ids| <= n
    ensures |ids| == n ==> forall x: nat :: x < n ==> x in ids
  {
    var used := set x | x in ids;
    DistinctAsSet(ids);
    SubsetSize(used, Ids(n));
    if |ids| == n {
      forall x: nat | x < n ensures x in ids { assert x in Ids(n); }
    }
  }

  lemma DistinctAsSet<T>(s: seq<T>)
    requires Distinct(s)
    ensures |set x | x in s| == |s|
  {
    if s != [] {
      var front := s[..|s| - 1];
      DistinctAsSet(front);
      assert s == front + [s[|s| - 1]];
      assert (set x | x in s) == (set x | x in front) + {s[|s| - 1]};
    }
  }

  lemma SubsetSize<T>(a: set<T>, b: set<T>)
    requires a <= b
    ensures |a| <= |b|
    ensures |a| == |b| ==> a == b
  {
    assert b == a + (b - a);
    assert |b| == |a| + |b - a|;
    assert |a| == |b| ==> b - a == {};
  }

  /** Taking out one element. */
  function Without<T>(s: seq<T>, k: nat): (r: seq<T>)
    requires k < |s|
    ensures |r| == |s| - 1
    ensures forall i :: 0 <= i < k ==> r[i] == s[i]
    ensures forall i :: k <= i < |r| ==> r[i] == s[i + 1]
  {
    s[..k] + s[k + 1..]
  }

  lemma WithoutMultiset<T>(s: seq<T>, k: nat)
    requires k < |s|
    ensures multiset(s) == multiset(Without(s, k)) + multiset{s[k]}
  {
    assert s == s[..k] + [s[k]] + s[k + 1..];
  }

  /** Dropping the last id from a permutation leaves a permutation of the others. */
  lemma DropLastId(ids: seq<nat>, n: nat) returns (k: nat)
    requires IsPermutation(ids, n + 1)
    ensures k < |ids| && ids[k] == n && IsPermutation(Without(ids, k), n)
  {
    DistinctSize(ids, n + 1);
    assert n in ids;
    k :| 0 <= k < |ids| && ids[k] == n;
    forall i | 0 <= i < n ensures Without(ids, k)[i] < n {
      assert Without(ids, k)[i] == ids[if i < k then i else i + 1] != n;
    }
  }

  function Insert<T>(s: seq<T>, k: nat, x: T): (r: seq<T>)
    requires k <= |s|
    ensures |r| == |s| + 1 && r[k] == x
    ensures forall i :: 0 <= i < k ==> r[i] == s[i]
    ensures forall i :: k < i < |r| ==> r[i] == s[i - 1]
  {
    s[..k] + [x] + s[k..]
  }

  /** A permutation of ids picks out exactly the operations. */
  lemma PermutationPicksAll<T>(s: seq<T>, ids: seq<nat>)
    requires IsPermutation(ids, |s|)
    ensures multiset(Pick(s, ids)) == multiset(s)
    decreases |s|
  {
    if s == [] {
      assert Pick(s, ids) == [];
    } else {
      var n := |s| - 1;
      var k := DropLastId(ids, n);
      PermutationPicksAll(Without(s, n), Without(ids, k));
      assert Pick(Without(s, n), Without(ids, k)) == Without(Pick(s, ids), k);
      WithoutMultiset(Pick(s, ids), k);
      WithoutMultiset(s, n);
    }
  }

  /** The same multiset without one occurrence on either side. */
  lemma WithoutBoth<T>(s: seq<T>, k: nat, t: seq<T>, l: nat)
    requires k < |s| && l < |t| && s[k] == t[l]
    requires multiset(s) == multiset(t)
    ensures multiset(Without(s, k)) == multiset(Without(t, l))
  {
    WithoutMultiset(s, k);
    WithoutMultiset(t, l);
    assert multiset(Without(s, k)) == multiset(s) - multiset{s[k]};
    assert multiset(Without(t, l)) == multiset(t) - multiset{s[k]};
  }

  lemma InsertPermutation(rest: seq<nat>, n: nat, k: nat)
    requires IsPermutation(rest, n) && k <= n
    ensures IsPermutation(Insert(rest, k, n), n + 1)
  {
    var ids := Insert(rest, k, n);
    forall i | 0 <= i < |ids| && i != k ensures ids[i] == rest[if i < k then i else i - 1] < n {
    }
  }

  lemma InsertLastId<T>(s: seq<T>, order: seq<T>, k: nat, rest: seq<nat>)
    requires s != [] && k < |order| && order[k] == s[|s| - 1]
    requires IsPermutation(rest, |s| - 1) && Pick(Without(s, |s| - 1), rest) == Without(order, k)
    ensures IsPermutation(Insert(rest, k, |s| - 1), |s|) && Pick(s, Insert(rest, k, |s| - 1)) == order
  {
    InsertPermutation(rest, |s| - 1, k);
    hide IsPermutation, Distinct;
    var ids := Insert(rest, k, |s| - 1);
    forall i | 0 <= i < |ids| ensures s[ids[i]] == order[i] {
      if i != k {
        var j := if i < k then i else i - 1;
        assert Pick(Without(s, |s| - 1), rest)[j] == Without(order, k)[j];
      }
    }
  }

  lemma SameElements<T>(s: seq<T>, t: seq<T>, x: T)
    requires multiset(s) == multiset(t) && x in s
    ensures x in t
  {
    assert x in multiset(s);
  }

  /** Any rearrangement of the operations is given by some permutation of ids. */
  lemma RearrangementHasIds<T>(s: seq<T>, order: seq<T>) returns (ids: seq<nat>)
    requires multiset(order) == multiset(s)
    ensures IsPermutation(ids, |s|) && Pick(s, ids) == order
    decreases |s|
  {
    hide Insert, Without, Pick;
    if s == [] {
      assert |multiset(order)| == 0;
      ids := [];
    } else {
      SameElements(s, order, s[|s| - 1]);
      var k :| 0 <= k < |order| && order[k] == s[|s| - 1];
      WithoutBoth(order, k, s, |s| - 1);
      var rest := RearrangementHasIds(Without(s, |s| - 1), Without(order, k));
      InsertLastId(s, order, k, rest);
      ids := Insert(rest, k, |s| - 1);
    }
  }

  /** Rearranging distinct elements. */
  lemma SameMembers<T>(s: seq<T>, t: seq<T>)
    requires multiset(s) == multiset(t) && Distinct(s)
    ensures Distinct(t) && forall x :: x in s <==> x in t
  {
    var ids := RearrangementHasIds(s, t);
    forall x ensures x in s <==> x in t {
      assert x in s <==> x in multiset(s);
      assert x in t <==> x in multiset(t);
    }
  }

  ghost predicate LinearizationById<S, I, O>(m: Model<S, I, O>, ops: seq<Operation<I, O>>, ids: seq<nat>) {
    IsPermutation(ids, |ops|) && RealTime(Pick(ops, ids)) && Run(m, Pick(ops, ids)).Some?
  }

  /** Ordering the operations and ordering their ids come to the same thing. */
  lemma LinearizableById<S, I(!new), O(!new)>(m: Model<S, I, O>, ops: seq<Operation<I, O>>)
    ensures Linearizable(m, ops) <==> exists ids :: LinearizationById(m, ops, ids)
  {
    if Linearizable(m, ops) {
      var order :| Linearization(m, ops, order);
      var ids := RearrangementHasIds(ops, order);
      assert LinearizationById(m, ops, ids);
    }
    if ids :| LinearizationById(m, ops, ids) {
      PermutationPicksAll(ops, ids);
      assert Linearization(m, ops, Pick(ops, ids));
    }
  }
}
