/** The doubly linked list of calls and returns that the search takes operations out of and puts
    them back into. The nodes never change their order, so a list is given by its nodes in that
    order and by the set of positions that are still in it. */
module EntryList {
  import opened Linearizability

  datatype Value<I, O> = NoValue | In(input: I) | Out(output: O)

  class Node<I(!new), O(!new)> {
    const value: Value<I, O>
    /** The return of a call; null for a return. */
    const matching: Node?<I, O>
    const id: int
    /** Its place in the original order. */
    ghost const pos: nat
    var next: Node?<I, O>
    var prev: Node?<I, O>

    constructor (value: Value<I, O>, matching: Node?<I, O>, id: int, ghost pos: nat)
      ensures this.value == value && this.matching == matching && this.id == id && this.pos == pos
      ensures next == null && prev == null
    {
      this.value, this.matching, this.id, this.pos := value, matching, id, pos;
      this.next, this.prev := null, null;
    }
  }

  // ----- Neighbours among the positions in the list

  /** The next position in the list after i, or n if there is none. */
  ghost function Next(live: set<nat>, i: nat, n: nat): (j: nat)
    requires i < n
    ensures i < j <= n && (j < n ==> j in live)
    ensures forall k :: i < k < j ==> k !in live
    decreases n - i
  {
    if i + 1 == n then n else if i + 1 in live then i + 1 else Next(live, i + 1, n)
  }

  /** The position in the list before i, or -1 if there is none. */
  ghost function Prev(live: set<nat>, i: nat): (j: int)
    ensures -1 <= j < i && (j >= 0 ==> j in live)
    ensures forall k :: j < k < i ==> k !in live
  {
    if i == 0 then -1 else if i - 1 in live then i - 1 else Prev(live, i - 1)
  }

  lemma {:induction false} NextIs(live: set<nat>, i: nat, n: nat, j: nat)
    requires i < j <= n && (j < n ==> j in live) && forall k :: i < k < j ==> k !in live
    ensures Next(live, i, n) == j
  {
  }

  lemma {:induction false} PrevIs(live: set<nat>, i: nat, j: int)
    requires -1 <= j < i && (j >= 0 ==> j in live) && forall k :: j < k < i ==> k !in live
    ensures Prev(live, i) == j
  {
  }

  /** Taking k out joins its two neighbours and leaves all others as they were. */
  lemma {:induction false} NeighboursWithout(live: set<nat>, k: nat, i: nat, n: nat)
    requires k in live && i in live && i != k && i < n && k < n
    ensures Next(live, i, n) == k <==> Prev(live, k) == i
    ensures Prev(live, i) == k <==> Next(live, k, n) == i
    ensures Next(live - {k}, i, n) == if Next(live, i, n) == k then Next(live, k, n) else Next(live, i, n)
    ensures Prev(live - {k}, i) == if Prev(live, i) == k then Prev(live, k) else Prev(live, i)
  {
    NextIs(live - {k}, i, n, if Next(live, i, n) == k then Next(live, k, n) else Next(live, i, n));
    PrevIs(live - {k}, i, if Prev(live, i) == k then Prev(live, k) else Prev(live, i));
  }

  /** The nodes in their original order. */
  ghost predicate Indexed<I(!new), O(!new)>(ns: seq<Node<I, O>>) {
    forall i: nat :: i < |ns| ==> ns[i].pos == i
  }

  ghost function NodeAt<I(!new), O(!new)>(ns: seq<Node<I, O>>, j: int): Node?<I, O> {
    if 0 <= j < |ns| then ns[j] else null
  }

  ghost predicate LinkedAt<I(!new), O(!new)>(ns: seq<Node<I, O>>, live: set<nat>, i: nat)
    requires i < |ns|
    reads ns[i]
  {
    && ns[i].next == NodeAt(ns, Next(live, i, |ns|))
    && ns[i].prev == NodeAt(ns, Prev(live, i))
  }

  /** Every node in the list points to its neighbours in the list. */
  ghost predicate Linked<I(!new), O(!new)>(ns: seq<Node<I, O>>, live: set<nat>)
    reads ns
  {
    && (forall i :: i in live ==> i < |ns|)
    && (forall i {:trigger LinkedAt(ns, live, i)} :: i in live ==> LinkedAt(ns, live, i))
  }

  /** Puts n in front of the mark, between it and the node before it if there is one. */
  method InsertBefore<I(!new), O(!new)>(n: Node<I, O>, mark: Node?<I, O>) returns (r: Node<I, O>)
    requires n != mark
    modifies n, mark, if mark != null then mark.prev else null
    ensures r == n
    ensures mark == null ==> unchanged(n)
    ensures mark != null && old(mark.prev) == null ==>
              n.next == mark && mark.prev == n && n.prev == old(n.prev) && mark.next == old(mark.next)
    ensures mark != null && old(mark.prev) != null && old(mark.prev) != n && old(mark.prev) != mark ==>
              && n.next == mark && mark.prev == n && n.prev == old(mark.prev) && n.prev.next == n
              && n.prev.prev == old(mark.prev.prev) && mark.next == old(mark.next)
  {
    if mark != null {
      var beforeMark := mark.prev;
      mark.prev := n;
      n.next := mark;
      if beforeMark != null {
        n.prev := beforeMark;
        beforeMark.next := n;
      }
    }
    return n;
  }

  /** Makes the neighbours of a node point past it. */
  method Bypass<I(!new), O(!new)>(x: Node<I, O>, ghost ns: seq<Node<I, O>>, ghost live: set<nat>, ghost k: nat)
    requires Indexed(ns) && Linked(ns, live) && 0 in live && k in live && 0 < k && ns[k] == x
    modifies ns
    ensures Linked(ns, live - {k})
    ensures unchanged(x)
    ensures forall i: nat :: i < |ns| && i !in live ==> unchanged(ns[i])
  {
    assert LinkedAt(ns, live, k);
    x.prev.next := x.next;
    if x.next != null {
      x.next.prev := x.prev;
    }
    forall i | i in live - {k} ensures LinkedAt(ns, live - {k}, i) {
      assert old(LinkedAt(ns, live, i));
      NeighboursWithout(live, k, i, |ns|);
    }
  }

  /** Makes them point to it again. */
  method Restore<I(!new), O(!new)>(x: Node<I, O>, ghost ns: seq<Node<I, O>>, ghost live: set<nat>, ghost k: nat)
    requires Indexed(ns) && Linked(ns, live - {k}) && 0 in live && k in live && 0 < k < |ns| && ns[k] == x
    requires LinkedAt(ns, live, k)
    modifies ns
    ensures Linked(ns, live)
    ensures unchanged(x)
    ensures forall i: nat :: i < |ns| && i !in live ==> unchanged(ns[i])
  {
    x.prev.next := x;
    if x.next != null {
      x.next.prev := x;
    }
    forall i | i in live ensures i < |ns| && LinkedAt(ns, live, i) {
      if i != k {
        assert i in live - {k} && old(LinkedAt(ns, live - {k}, i));
        NeighboursWithout(live, k, i, |ns|);
      }
    }
  }

  /** Takes a call and its return out of the list; both keep pointing to where they were. */
  method Lift<I(!new), O(!new)>(entry: Node<I, O>, ghost ns: seq<Node<I, O>>, ghost live: set<nat>, ghost a: nat, ghost b: nat)
    requires Indexed(ns) && Linked(ns, live)
    requires 0 in live && a in live && b in live && 0 < a < b
    requires ns[a] == entry && ns[b] == entry.matching
    modifies ns
    ensures Linked(ns, live - {a} - {b})
    ensures LinkedAt(ns, live, a) && LinkedAt(ns, live - {a}, b)
    ensures forall i: nat :: i < |ns| && i !in live ==> unchanged(ns[i])
  {
    assert LinkedAt(ns, live, a) && entry.next != null;
    ghost var rest := live - {a};
    Bypass(entry, ns, live, a);
    assert 0 in rest && a !in rest && b in rest;
    label callOut:
    Bypass(entry.matching, ns, rest, b);
    assert unchanged@callOut(ns[a]);
  }

  /** Puts them back: exactly undoes the lift, provided the list is as it was right after it. */
  method Unlift<I(!new), O(!new)>(entry: Node<I, O>, ghost ns: seq<Node<I, O>>, ghost live: set<nat>, ghost a: nat, ghost b: nat)
    requires Indexed(ns) && Linked(ns, live - {a} - {b})
    requires 0 in live && a in live && b in live && 0 < a < b < |ns|
    requires ns[a] == entry && ns[b] == entry.matching
    requires LinkedAt(ns, live, a) && LinkedAt(ns, live - {a}, b)
    modifies ns
    ensures Linked(ns, live)
    ensures forall i: nat :: i < |ns| && i !in live ==> unchanged(ns[i])
  {
    assert 0 in live - {a} && a !in live - {a};
    Restore(entry.matching, ns, live - {a}, b);
    assert entry.next != null;
    Restore(entry, ns, live, a);
  }

  // ----- Histories of calls and returns

  datatype Entry<I, O> = CallEntry(input: I, id: nat, time: int) | ReturnEntry(output: O, id: nat, time: int)

  /** The operation is called at a and returns later, at b, and occurs nowhere else. */
  ghost predicate Placed<I, O>(h: seq<Entry<I, O>>, id: nat, a: nat, b: nat) {
    && a < b < |h|
    && h[a].CallEntry? && h[b].ReturnEntry? && h[a].id == h[b].id == id
    && forall k: nat :: k < |h| && h[k].id == id ==> k == a || k == b
  }

  ghost predicate Occurs<I, O>(h: seq<Entry<I, O>>, id: nat) {
    exists a, b :: Placed(h, id, a, b)
  }

  /** n operations, with ids 0 to n - 1, each called once and returning once later. */
  ghost predicate IsHistory<I, O>(h: seq<Entry<I, O>>) {
    && |h| % 2 == 0
    && (forall k: nat :: k < |h| ==> h[k].id < |h| / 2)
    && (forall id: nat :: id < |h| / 2 ==> Occurs(h, id))
  }

  ghost function Places<I, O>(h: seq<Entry<I, O>>, id: nat): (r: (nat, nat))
    requires IsHistory(h) && id < |h| / 2
    ensures Placed(h, id, r.0, r.1)
  {
    assert Occurs(h, id);
    var a, b :| Placed(h, id, a, b);
    (a, b)
  }

  /** The places of its call and of its return, counted from 1. */
  ghost function CallAt<I, O>(h: seq<Entry<I, O>>, id: nat): (a: nat)
    requires IsHistory(h) && id < |h| / 2
    ensures 0 < a <= |h|
  {
    Places(h, id).0 + 1
  }

  ghost function ReturnAt<I, O>(h: seq<Entry<I, O>>, id: nat): (b: nat)
    requires IsHistory(h) && id < |h| / 2
    ensures CallAt(h, id) < b <= |h|
  {
    Places(h, id).1 + 1
  }

  /** The operations of a history, timed by their places in it, counted from 1. */
  ghost function OperationsOf<I, O>(h: seq<Entry<I, O>>): (ops: seq<Operation<I, O>>)
    requires IsHistory(h)
    ensures |ops| == |h| / 2
  {
    seq(|h| / 2, id requires 0 <= id < |h| / 2 =>
      Operation(h[Places(h, id).0].input, CallAt(h, id), h[Places(h, id).1].output, ReturnAt(h, id)))
  }

  // ----- Building the list

  ghost predicate IsNodeOf<I(!new), O(!new)>(node: Node<I, O>, e: Entry<I, O>) {
    && node.id == e.id
    && match e
       case CallEntry(input, _, _) => node.value == In(input) && node.matching != null
       case ReturnEntry(output, _, _) => node.value == Out(output) && node.matching == null
  }

  ghost predicate BuiltAt<I(!new), O(!new)>(h: seq<Entry<I, O>>, ns: seq<Node?<I, O>>, i: nat, k: nat)
    requires IsHistory(h) && |ns| == |h| && k < |h|
    reads ns[k]
  {
    && ns[k] != null && ns[k].pos == k + 1 && IsNodeOf(ns[k], h[k])
    && ns[k].next == (if k + 1 < |h| then ns[k + 1] else null)
    && ns[k].prev == (if k > i then ns[k - 1] else null)
    && (h[k].CallEntry? ==> ns[k].matching == ns[ReturnAt(h, h[k].id) - 1])
  }

  /** The nodes from position i on: made, numbered, and chained. */
  ghost predicate Built<I(!new), O(!new)>(h: seq<Entry<I, O>>, ns: seq<Node?<I, O>>, i: nat)
    requires IsHistory(h) && |ns| == |h|
    reads ns
  {
    forall k: nat :: i <= k < |h| ==> BuiltAt(h, ns, i, k)
  }

  /** The place of an entry is the first or the second one of its operation. */
  lemma OwnPlace<I, O>(h: seq<Entry<I, O>>, k: nat)
    requires IsHistory(h) && k < |h|
    ensures k == if h[k].CallEntry? then Places(h, h[k].id).0 else Places(h, h[k].id).1
  {
  }

  lemma OneReturn<I, O>(h: seq<Entry<I, O>>, j: nat, k: nat)
    requires IsHistory(h) && j < |h| && k < |h| && h[j].ReturnEntry? && h[k].ReturnEntry?
    ensures h[j].id == h[k].id ==> j == k
  {
    OwnPlace(h, j);
    OwnPlace(h, k);
  }

  method MakeLinkedEntries<I(!new), O(!new)>(h: seq<Entry<I, O>>) returns (root: Node?<I, O>, ghost ns: seq<Node?<I, O>>)
    requires IsHistory(h)
    ensures |ns| == |h| && Built(h, ns, 0)
    ensures root == if h == [] then null else ns[0]
    ensures forall k: nat :: k < |h| ==> fresh(ns[k])
  {
    root, ns := null, seq(|h|, _ => null);
    var matching: map<nat, Node<I, O>> := map[];
    var i := |h|;
    while i > 0
      invariant 0 <= i <= |h| && |ns| == |h| && Built(h, ns, i)
      invariant root == if i == |h| then null else ns[i]
      invariant forall k: nat :: i <= k < |h| ==> fresh(ns[k])
      invariant forall k: nat :: i <= k < |h| && h[k].ReturnEntry? ==> h[k].id in matching && matching[h[k].id] == ns[k]
    {
      assert i < |h| ==> BuiltAt(h, ns, i, i);
      i := i - 1;
      var elem := h[i];
      OwnPlace(h, i);
      var entry: Node<I, O>;
      if elem.ReturnEntry? {
        entry := new Node(Out(elem.output), null, elem.id, i + 1);
        forall k: nat | i < k < |h| && h[k].ReturnEntry? ensures h[k].id != elem.id {
          OneReturn(h, i, k);
        }
        matching := matching[elem.id := entry];
      } else {
        assert BuiltAt(h, ns, i + 1, Places(h, elem.id).1);
        entry := new Node(In(elem.input), matching[elem.id], elem.id, i + 1);
      }
      label made:
      var _ := InsertBefore(entry, root);
      ghost var before := ns;
      root, ns := entry, ns[i := entry];
      forall k: nat | i <= k < |h| ensures BuiltAt(h, ns, i, k) {
        if k > i {
          assert old@made(BuiltAt(h, before, i + 1, k));
        }
        if h[k].CallEntry? { OwnPlace(h, k); }
      }
    }
  }

  method Length<I(!new), O(!new)>(n: Node?<I, O>, ghost h: seq<Entry<I, O>>, ghost ns: seq<Node?<I, O>>) returns (l: nat)
    requires IsHistory(h) && |ns| == |h| && Built(h, ns, 0) && n == if h == [] then null else ns[0]
    ensures l == |h|
  {
    l := 0;
    var n := n;
    assert h != [] ==> BuiltAt(h, ns, 0, 0);
    while n != null
      invariant l <= |h| && n == (if l < |h| then ns[l] else null) && (n == null <==> l == |h|)
      decreases |h| - l
    {
      assert BuiltAt(h, ns, 0, l) && (l + 1 < |h| ==> BuiltAt(h, ns, 0, l + 1));
      n := n.next;
      l := l + 1;
    }
  }
}
