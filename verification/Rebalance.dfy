/** Giving shards to groups: filling unassigned shards, and evening out by moving one shard at a
    time from the largest group to the smallest. */
module Rebalance {
  import opened Linearizability
  import opened Sorting
  import Circular

  type Groups = map<int, seq<string>>

  // ----- Group ids in order

  ghost predicate Ascending(keys: seq<int>) {
    forall i, j :: 0 <= i < j < |keys| ==> keys[i] < keys[j]
  }

  lemma SomeMember<T>(s: set<T>) returns (x: T)
    requires s != {}
    ensures x in s
  {
    x :| x in s;
  }

  lemma SomeElement<T>(m: multiset<T>) returns (x: T)
    requires m != multiset{}
    ensures x in m
  {
    x :| x in m;
  }

  lemma HasLeast(s: set<int>) returns (m: int)
    requires s != {}
    ensures m in s && forall x :: x in s ==> m <= x
  {
    var first := SomeMember(s);
    var rest := s - {first};
    m := first;
    if rest != {} {
      var l := HasLeast(rest);
      if l < first { m := l; }
    }
    forall x | x in s ensures m <= x {
      assert x == first || x in rest;
    }
  }

  ghost function SortedKeys(s: set<int>): (keys: seq<int>)
    ensures Ascending(keys) && forall x :: x in keys <==> x in s
    ensures keys == [] <==> s == {}
  {
    if s == {} then [] else
      HasLeastExists(s);
      var m :| m in s && forall x :: x in s ==> m <= x;
      [m] + SortedKeys(s - {m})
  }

  lemma HasLeastExists(s: set<int>)
    requires s != {}
    ensures exists m :: m in s && forall x :: x in s ==> m <= x
  {
    var m := HasLeast(s);
  }

  lemma FirstIsIn(s: seq<int>) returns (x: int)
    requires s != []
    ensures x in s
  {
    x := s[0];
  }

  lemma NoMembers(a: seq<int>, b: seq<int>)
    requires a == [] && forall x :: x in a <==> x in b
    ensures |b| == 0
  {
    if b != [] {
      var x := FirstIsIn(b);
    }
  }

  /** There is only one way to put a set in order. */
  lemma OneOrder(a: seq<int>, b: seq<int>)
    requires Ascending(a) && Ascending(b) && forall x :: x in a <==> x in b
    ensures a == b
  {
    if a != [] && b != [] {
      assert a[0] in b && b[0] in a;
      assert a[0] == b[0];
      forall x ensures x in a[1..] <==> x in b[1..] {
        assert x in a[1..] <==> x in a && x != a[0];
        assert x in b[1..] <==> x in b && x != b[0];
      }
      OneOrder(a[1..], b[1..]);
      assert a == [a[0]] + a[1..] && b == [b[0]] + b[1..];
    } else {
      if a == [] { NoMembers(a, b); } else { NoMembers(b, a); }
    }
  }

  predicate AtMostInt(a: int, b: int) {
    a <= b
  }

  /** The group ids in order, whatever order the map gives them in. */
  method GetSortedKeys(curMap: Groups) returns (keys: seq<int>)
    ensures keys == SortedKeys(curMap.Keys)
  {
    var found: seq<int> := [];
    var rest := curMap.Keys;
    while rest != {}
      invariant rest <= curMap.Keys && Distinct(found)
      invariant forall k :: k in found <==> k in curMap.Keys && k !in rest
      decreases rest
    {
      ghost var some := SomeMember(rest);
      var k :| k in rest;
      found, rest := found + [k], rest - {k};
    }
    keys := Sort(found, AtMostInt);
    SameMembers(found, keys);
    forall i, j | 0 <= i < j < |keys| ensures keys[i] < keys[j] {
      assert AtMostInt(keys[i], keys[j]);
    }
    OneOrder(keys, SortedKeys(curMap.Keys));
  }

  // ----- Filling unassigned shards

  function VoidsBefore(shards: seq<int>, k: nat): (n: nat)
    requires k <= |shards|
  {
    if k == 0 then 0 else VoidsBefore(shards, k - 1) + if shards[k - 1] <= 0 then 1 else 0
  }

  /** Whose turn it is, of d in a circle. */
  function Turn(n: nat, d: nat): (i: nat)
    requires d > 0
    ensures i < d
  {
    n % d
  }

  /** Unassigned shards go to the groups in turn. */
  function Filled(shards: seq<int>, keys: seq<int>): (r: seq<int>)
    ensures |r| == |shards|
    ensures keys == [] ==> r == shards
    ensures keys != [] ==> forall k :: 0 <= k < |r| ==>
              r[k] == if shards[k] <= 0 then keys[Turn(VoidsBefore(shards, k), |keys|)] else shards[k]
  {
    if keys == [] then shards
    else seq(|shards|, k requires 0 <= k < |shards| => if shards[k] <= 0 then keys[Turn(VoidsBefore(shards, k), |keys|)] else shards[k])
  }

  lemma NextVoid(shards: seq<int>, k: nat)
    requires k <= |shards|
    ensures VoidsBefore(shards, 0) == 0
    ensures k < |shards| ==> VoidsBefore(shards, k + 1) == VoidsBefore(shards, k) + if shards[k] <= 0 then 1 else 0
  {
  }

  lemma {:induction false} VoidsCounted(shards: seq<int>, k: nat)
    requires k <= |shards|
    ensures VoidsBefore(shards, k) == |set i: nat | i < k && shards[i] <= 0|
  {
    var voids := set i: nat | i < k && shards[i] <= 0;
    if k == 0 {
      assert voids == {};
    } else {
      VoidsCounted(shards, k - 1);
      var before := set i: nat | i < k - 1 && shards[i] <= 0;
      assert voids == if shards[k - 1] <= 0 then before + {k - 1} else before;
    }
  }

  /** An unassigned shard goes to the group whose turn it is, counting the unassigned shards before it;
      an assigned one stays. */
  lemma FilledInTurn(shards: seq<int>, keys: seq<int>, k: nat)
    requires keys != [] && k < |shards|
    ensures shards[k] > 0 ==> Filled(shards, keys)[k] == shards[k]
    ensures shards[k] <= 0 ==> Filled(shards, keys)[k] == keys[|set i: nat | i < k && shards[i] <= 0| % |keys|]
  {
    VoidsCounted(shards, k);
  }

  method AssignVoidShards(shards: array<int>, groups: Groups)
    modifies shards
    ensures shards[..] == Filled(old(shards[..]), SortedKeys(groups.Keys))
  {
    hide Ascending, Turn, Filled, VoidsBefore, SortedKeys;
    var keys := GetSortedKeys(groups);
    if |keys| == 0 {
      return;
    }
    ghost var before := shards[..];
    var curInd := 0;
    NextTurn(0, |keys|);
    NextVoid(before, 0);
    for k := 0 to shards.Length
      invariant curInd == Turn(VoidsBefore(before, k), |keys|)
      invariant forall i :: 0 <= i < k ==> shards[i] == Filled(before, keys)[i]
      invariant forall i :: k <= i < shards.Length ==> shards[i] == before[i]
    {
      NextVoid(before, k);
      var v := shards[k];
      if v <= 0 {
        shards[k] := keys[curInd];
        NextTurn(VoidsBefore(before, k), |keys|);
        curInd := Turn(curInd + 1, |keys|);
      }
    }
  }

  lemma NextTurn(n: nat, d: nat)
    requires d > 0
    ensures Turn(Turn(n, d) + 1, d) == Turn(n + 1, d) && Turn(0, d) == 0
  {
    Circular.NextTurn(n, d);
    Circular.DivisionUnique(0, d, 0, 0);
  }

  // ----- Counting shards

  predicate Live(shards: seq<int>, keys: seq<int>) {
    forall i :: 0 <= i < |shards| ==> shards[i] in keys
  }

  /** No group has two shards more than another. */
  predicate Balanced(shards: seq<int>, keys: seq<int>) {
    forall g, h :: g in keys && h in keys ==> multiset(shards)[g] <= multiset(shards)[h] + 1
  }

  function MaxGroup(m: multiset<int>, keys: seq<int>): (g: int)
    requires keys != []
    ensures g in keys && forall k :: k in keys ==> m[k] <= m[g]
  {
    var last := keys[|keys| - 1];
    if |keys| == 1 then last else
      assert keys == keys[..|keys| - 1] + [last];
      var g := MaxGroup(m, keys[..|keys| - 1]);
      if m[last] > m[g] then last else g
  }

  function MinGroup(m: multiset<int>, keys: seq<int>): (g: int)
    requires keys != []
    ensures g in keys && forall k :: k in keys ==> m[g] <= m[k]
  {
    var last := keys[|keys| - 1];
    if |keys| == 1 then last else
      assert keys == keys[..|keys| - 1] + [last];
      var g := MinGroup(m, keys[..|keys| - 1]);
      if m[last] < m[g] then last else g
  }

  function CountFor(counts: map<int, int>, g: int): int {
    if g in counts then counts[g] else 0
  }

  method CountShards(shards: array<int>) returns (counts: map<int, int>)
    ensures forall g :: CountFor(counts, g) == multiset(shards[..])[g]
  {
    counts := map[];
    for i := 0 to shards.Length
      invariant forall g :: CountFor(counts, g) == multiset(shards[..i])[g]
    {
      var g := shards[i];
      assert shards[..i + 1] == shards[..i] + [g];
      counts := counts[g := CountFor(counts, g) + 1];
    }
    assert shards[..shards.Length] == shards[..];
  }

  /** The smallest and the largest of these groups, the first in order where several are. */
  ghost predicate Extremes(m: multiset<int>, keys: seq<int>, min: int, minGroup: int, max: int, maxGroup: int) {
    if keys == [] then min == 257 && minGroup == 0 && max == 0 && maxGroup == 0
    else
      && minGroup == MinGroup(m, keys) && min == m[minGroup]
      && max == m[MaxGroup(m, keys)] && maxGroup == if max > 0 then MaxGroup(m, keys) else 0
  }

  lemma OneMoreGroup(m: multiset<int>, keys: seq<int>, i: nat, min: int, minGroup: int, max: int, maxGroup: int)
    requires i < |keys| && m[keys[i]] <= 256 && Extremes(m, keys[..i], min, minGroup, max, maxGroup)
    ensures var g := keys[i];
            Extremes(m, keys[..i + 1],
                     if m[g] < min then m[g] else min, if m[g] < min then g else minGroup,
                     if m[g] > max then m[g] else max, if m[g] > max then g else maxGroup)
  {
    assert keys[..i + 1][..i] == keys[..i];
  }

  /** The sentinel 257 is above every count only for fewer than 257 shards. */
  method GetMinMaxGroup(shards: array<int>, groups: Groups) returns (min: int, minGroup: int, max: int, maxGroup: int)
    requires shards.Length <= 256
    ensures Extremes(multiset(shards[..]), SortedKeys(groups.Keys), min, minGroup, max, maxGroup)
  {
    var counts := CountShards(shards);
    ghost var m := multiset(shards[..]);
    min, minGroup, max, maxGroup := 257, 0, 0, 0;
    var gids := GetSortedKeys(groups);
    assert Extremes(m, [], min, minGroup, max, maxGroup);
    hide Extremes;
    for i := 0 to |gids|
      invariant Extremes(m, gids[..i], min, minGroup, max, maxGroup)
    {
      var g := gids[i];
      CountAtMost(shards[..], g);
      OneMoreGroup(m, gids, i, min, minGroup, max, maxGroup);
      if CountFor(counts, g) > max {
        maxGroup := g;
        max := CountFor(counts, g);
      }
      if CountFor(counts, g) < min {
        minGroup := g;
        min := CountFor(counts, g);
      }
    }
    assert gids[..|gids|] == gids;
  }

  lemma CountAtMost(s: seq<int>, g: int)
    ensures multiset(s)[g] <= |s|
  {
    assert |multiset(s)| == |s|;
    assert multiset(s) == multiset(s)[g := 0] + multiset{}[g := multiset(s)[g]];
  }

  // ----- How far from even

  function Over(m: multiset<int>, keys: seq<int>, q: nat): nat {
    if keys == [] then 0 else
      var c := m[keys[|keys| - 1]];
      Over(m, keys[..|keys| - 1], q) + if c > q + 1 then c - q - 1 else 0
  }

  function Under(m: multiset<int>, keys: seq<int>, q: nat): nat {
    if keys == [] then 0 else
      var c := m[keys[|keys| - 1]];
      Under(m, keys[..|keys| - 1], q) + if c < q then q - c else 0
  }

  /** Shards beyond one more than the even share, or missing from the even share, whichever is more. */
  function Distance(m: multiset<int>, keys: seq<int>, q: nat): nat {
    var over, under := Over(m, keys, q), Under(m, keys, q);
    if over > under then over else under
  }

  lemma {:induction false} OverUnderSame(m: multiset<int>, n: multiset<int>, keys: seq<int>, q: nat)
    requires forall k :: k in keys ==> m[k] == n[k]
    ensures Over(m, keys, q) == Over(n, keys, q) && Under(m, keys, q) == Under(n, keys, q)
  {
    if keys != [] {
      var front, last := keys[..|keys| - 1], keys[|keys| - 1];
      assert keys == front + [last];
      assert last in keys && m[last] == n[last];
      OverUnderSame(m, n, front, q);
    }
  }

  /** One more shard for one group. */
  lemma {:induction false} OneMoreShard(m: multiset<int>, n: multiset<int>, keys: seq<int>, q: nat, g: int)
    requires Distinct(keys) && g in keys && n[g] == m[g] + 1 && forall k :: k in keys && k != g ==> n[k] == m[k]
    ensures Over(n, keys, q) == Over(m, keys, q) + if m[g] > q then 1 else 0
    ensures Under(m, keys, q) == Under(n, keys, q) + if m[g] < q then 1 else 0
  {
    var front, last := keys[..|keys| - 1], keys[|keys| - 1];
    assert keys == front + [last];
    if last == g {
      forall k | k in front ensures k != g && k in keys {
        var i :| 0 <= i < |front| && front[i] == k;
        assert keys[i] == k;
      }
      OverUnderSame(m, n, front, q);
    } else {
      assert n[last] == m[last];
      OneMoreShard(m, n, front, q, g);
    }
  }

  // ----- Bounds from the number of shards

  function Total(m: multiset<int>, keys: seq<int>): nat {
    if keys == [] then 0 else Total(m, keys[..|keys| - 1]) + m[keys[|keys| - 1]]
  }

  lemma {:induction false} TotalSame(m: multiset<int>, n: multiset<int>, keys: seq<int>)
    requires forall k :: k in keys ==> m[k] == n[k]
    ensures Total(m, keys) == Total(n, keys)
  {
    if keys != [] {
      var front, last := keys[..|keys| - 1], keys[|keys| - 1];
      assert keys == front + [last];
      assert last in keys && m[last] == n[last];
      TotalSame(m, n, front);
    }
  }

  lemma NotInFront(keys: seq<int>)
    requires keys != [] && Distinct(keys)
    ensures keys[|keys| - 1] !in keys[..|keys| - 1] && Distinct(keys[..|keys| - 1])
  {
  }

  /** When every shard is in a group the counts add up to all shards. */
  lemma {:induction false} TotalIsAll(m: multiset<int>, keys: seq<int>)
    requires Distinct(keys) && forall x :: x in m ==> x in keys
    ensures Total(m, keys) == |m|
  {
    if keys == [] {
      if m != multiset{} {
        var x := SomeElement(m);
      }
    } else {
      var front, last := keys[..|keys| - 1], keys[|keys| - 1];
      NotInFront(keys);
      var rest := m[last := 0];
      assert m == rest + multiset{}[last := m[last]];
      assert keys == front + [last];
      forall x | x in rest ensures x in front { assert x in keys; }
      TotalIsAll(rest, front);
      TotalSame(m, rest, front);
    }
  }

  lemma AddOnce(n: nat, a: nat)
    requires n > 0
    ensures n * a == (n - 1) * a + a
  {
  }

  lemma {:induction false} TotalAtLeast(m: multiset<int>, keys: seq<int>, a: nat)
    requires forall k :: k in keys ==> m[k] >= a
    ensures Total(m, keys) >= |keys| * a
  {
    if keys != [] {
      var front, last := keys[..|keys| - 1], keys[|keys| - 1];
      assert keys == front + [last];
      assert last in keys;
      TotalAtLeast(m, front, a);
      AddOnce(|keys|, a);
    }
  }

  lemma {:induction false} TotalAtMost(m: multiset<int>, keys: seq<int>, a: nat)
    requires forall k :: k in keys ==> m[k] <= a
    ensures Total(m, keys) <= |keys| * a
    ensures (exists k :: k in keys && m[k] < a) ==> Total(m, keys) < |keys| * a
  {
    if keys != [] {
      var front, last := keys[..|keys| - 1], keys[|keys| - 1];
      assert keys == front + [last];
      assert last in keys;
      TotalAtMost(m, front, a);
      AddOnce(|keys|, a);
    }
  }

  lemma {:induction false} OverMeans(m: multiset<int>, keys: seq<int>, q: nat)
    ensures Over(m, keys, q) > 0 <==> exists k :: k in keys && m[k] > q + 1
    ensures Under(m, keys, q) > 0 <==> exists k :: k in keys && m[k] < q
  {
    if keys != [] {
      var front, last := keys[..|keys| - 1], keys[|keys| - 1];
      assert keys == front + [last];
      assert last in keys;
      OverMeans(m, front, q);
    }
  }

  // ----- Evening out

  ghost predicate Assignable(s: seq<int>, keys: seq<int>) {
    keys != [] && Distinct(keys) && Live(s, keys)
  }

  function Share(s: seq<int>, keys: seq<int>): (q: nat)
    requires keys != []
  {
    |s| / |keys|
  }

  function Dist(s: seq<int>, keys: seq<int>): (d: nat)
    requires keys != []
  {
    Distance(multiset(s), keys, Share(s, keys))
  }

  predicate Uneven(s: seq<int>, keys: seq<int>)
    requires keys != []
  {
    multiset(s)[MaxGroup(multiset(s), keys)] > multiset(s)[MinGroup(multiset(s), keys)] + 1
  }

  lemma {:induction false} ShareBounds(s: seq<int>, keys: seq<int>)
    requires Assignable(s, keys)
    ensures |keys| * Share(s, keys) <= Total(multiset(s), keys) < |keys| * (Share(s, keys) + 1)
  {
    var q := Share(s, keys);
    assert |s| == |keys| * q + |s| % |keys|;
    AddOnceMore(|keys|, q);
    forall x | x in multiset(s) ensures x in keys {
      var i :| 0 <= i < |s| && s[i] == x;
    }
    TotalIsAll(multiset(s), keys);
    assert |multiset(s)| == |s|;
  }

  lemma AddOnceMore(n: nat, a: nat)
    ensures n * (a + 1) == n * a + n
  {
  }

  /** The smallest group has at most its share; and if less, the largest has more than its share. */
  lemma {:induction false} AroundShare(s: seq<int>, keys: seq<int>)
    requires Assignable(s, keys)
    ensures var m, q := multiset(s), Share(s, keys);
            var low, high := m[MinGroup(m, keys)], m[MaxGroup(m, keys)];
            && low <= q && (low < q ==> high > q)
            && (Over(m, keys, q) > 0 <==> high > q + 1)
            && (Under(m, keys, q) > 0 <==> low < q)
  {
    var m, q := multiset(s), Share(s, keys);
    ShareBounds(s, keys);
    OverMeans(m, keys, q);
    if m[MinGroup(m, keys)] > q { TotalAtLeast(m, keys, q + 1); }
    if m[MaxGroup(m, keys)] <= q { TotalAtMost(m, keys, q); }
  }

  /** No distance is left exactly when the shards are balanced. */
  lemma EvenIsBalanced(s: seq<int>, keys: seq<int>)
    requires Assignable(s, keys)
    ensures Dist(s, keys) == 0 <==> Balanced(s, keys)
    ensures Uneven(s, keys) <==> !Balanced(s, keys)
  {
    var m := multiset(s);
    AroundShare(s, keys);
    assert MinGroup(m, keys) in keys && MaxGroup(m, keys) in keys;
  }

  function FirstOf(s: seq<int>, g: int): (k: nat)
    requires g in s
    ensures k < |s| && s[k] == g && forall j :: 0 <= j < k ==> s[j] != g
  {
    if s[0] == g then 0 else 1 + FirstOf(s[1..], g)
  }

  lemma {:induction false} UnevenHasMax(s: seq<int>, keys: seq<int>)
    requires keys != [] && Uneven(s, keys)
    ensures MaxGroup(multiset(s), keys) in s
  {
    assert MaxGroup(multiset(s), keys) in multiset(s);
  }

  /** The shard that moves next: the first one of the largest group. */
  function NextToMove(s: seq<int>, keys: seq<int>): (k: nat)
    requires keys != [] && Uneven(s, keys)
    ensures k < |s| && s[k] == MaxGroup(multiset(s), keys)
  {
    UnevenHasMax(s, keys);
    FirstOf(s, MaxGroup(multiset(s), keys))
  }

  function MoveOne(s: seq<int>, keys: seq<int>): (t: seq<int>)
    requires keys != [] && Uneven(s, keys)
    ensures |t| == |s|
  {
    s[NextToMove(s, keys) := MinGroup(multiset(s), keys)]
  }

  /** Giving one shard to another group. */
  lemma {:induction false} Given(s: seq<int>, keys: seq<int>, k: nat, v: int, q: nat)
    requires Assignable(s, keys) && k < |s| && v in keys && v != s[k]
    ensures var m, n, u := multiset(s), multiset(s[k := v]), s[k];
            && m[u] > 0
            && Over(n, keys, q) + (if m[u] > q + 1 then 1 else 0) == Over(m, keys, q) + (if m[v] > q then 1 else 0)
            && Under(n, keys, q) + (if m[v] < q then 1 else 0) == Under(m, keys, q) + (if m[u] <= q then 1 else 0)
  {
    var m, n, u := multiset(s), multiset(s[k := v]), s[k];
    var without := m - multiset{u};
    assert n == without + multiset{v};
    OneMoreShard(without, m, keys, q, u);
    OneMoreShard(without, n, keys, q, v);
  }

  /** Every move brings the shards one closer to even. */
  lemma MoveReduces(s: seq<int>, keys: seq<int>)
    requires Assignable(s, keys) && Uneven(s, keys)
    ensures Assignable(MoveOne(s, keys), keys) && Dist(MoveOne(s, keys), keys) == Dist(s, keys) - 1
  {
    AroundShare(s, keys);
    Given(s, keys, NextToMove(s, keys), MinGroup(multiset(s), keys), Share(s, keys));
  }

  /** Any single change brings them at most one closer. */
  lemma ChangeReducesAtMostOne(s: seq<int>, keys: seq<int>, k: nat, v: int)
    requires Assignable(s, keys) && k < |s| && v in keys
    ensures Assignable(s[k := v], keys) && Dist(s, keys) <= Dist(s[k := v], keys) + 1
  {
    if v == s[k] {
      assert s[k := v] == s;
    } else {
      Given(s, keys, k, v, Share(s, keys));
    }
  }

  ghost function Redistributed(s: seq<int>, keys: seq<int>): (t: seq<int>)
    requires Assignable(s, keys)
    ensures |t| == |s|
    decreases Dist(s, keys)
  {
    if Uneven(s, keys) then MoveReduces(s, keys); Redistributed(MoveOne(s, keys), keys) else s
  }

  /** The shards moved, one after the other. */
  ghost function Moves(s: seq<int>, keys: seq<int>): (ks: seq<nat>)
    requires Assignable(s, keys)
    decreases Dist(s, keys)
  {
    if Uneven(s, keys) then MoveReduces(s, keys); [NextToMove(s, keys)] + Moves(MoveOne(s, keys), keys) else []
  }

  lemma {:induction false} RedistributedIsBalanced(s: seq<int>, keys: seq<int>)
    requires Assignable(s, keys)
    ensures Assignable(Redistributed(s, keys), keys) && Balanced(Redistributed(s, keys), keys)
    ensures |Moves(s, keys)| == Dist(s, keys)
    decreases Dist(s, keys)
  {
    EvenIsBalanced(s, keys);
    if Uneven(s, keys) {
      MoveReduces(s, keys);
      RedistributedIsBalanced(MoveOne(s, keys), keys);
    }
  }

  // ----- As few changes as possible

  ghost function Changed(s: seq<int>, t: seq<int>): (ks: set<nat>)
    requires |s| == |t|
  {
    set k: nat | k < |s| && s[k] != t[k]
  }

  /** Nothing closes a distance with fewer changes than the distance. */
  lemma ChangesNeeded(s: seq<int>, t: seq<int>, keys: seq<int>)
    requires Assignable(s, keys) && Assignable(t, keys) && |s| == |t|
    ensures Dist(s, keys) <= Dist(t, keys) + |Changed(s, t)|
    decreases |Changed(s, t)|
  {
    if Changed(s, t) == {} {
      forall k: nat | k < |s| ensures s[k] == t[k] { assert k !in Changed(s, t); }
      assert s == t;
    } else {
      var k := SomeMember(Changed(s, t));
      ChangeReducesAtMostOne(s, keys, k, t[k]);
      var s' := s[k := t[k]];
      assert Changed(s, t) == Changed(s', t) + {k};
      ChangesNeeded(s', t, keys);
    }
  }

  lemma {:induction false} ChangedWereMoved(s: seq<int>, keys: seq<int>)
    requires Assignable(s, keys)
    ensures forall k :: k in Changed(s, Redistributed(s, keys)) ==> k in Moves(s, keys)
    decreases Dist(s, keys)
  {
    if Uneven(s, keys) {
      MoveReduces(s, keys);
      ChangedWereMoved(MoveOne(s, keys), keys);
      forall k | k in Changed(s, Redistributed(s, keys)) ensures k in Moves(s, keys) {
        if k != NextToMove(s, keys) {
          assert k in Changed(MoveOne(s, keys), Redistributed(s, keys));
        }
      }
    }
  }

  lemma AsManyAsDistinct<T>(ks: seq<T>)
    ensures |set k | k in ks| <= |ks|
    ensures |set k | k in ks| == |ks| ==> Distinct(ks)
  {
    if ks != [] {
      var front, last := ks[..|ks| - 1], ks[|ks| - 1];
      AsManyAsDistinct(front);
      assert ks == front + [last];
      assert (set k | k in ks) == (set k | k in front) + {last};
    }
  }

  /** Evening out changes exactly as many shards as the distance, each of them once, and no balanced
      assignment to the same groups changes fewer. */
  lemma {:induction false} RedistributionIsBest(s: seq<int>, keys: seq<int>)
    requires Assignable(s, keys)
    ensures |Changed(s, Redistributed(s, keys))| == Dist(s, keys)
    ensures Distinct(Moves(s, keys))
    ensures forall t :: Assignable(t, keys) && |t| == |s| && Balanced(t, keys) ==>
              |Changed(s, Redistributed(s, keys))| <= |Changed(s, t)|
  {
    var r := Redistributed(s, keys);
    RedistributedIsBalanced(s, keys);
    EvenIsBalanced(r, keys);
    ChangesNeeded(s, r, keys);
    ChangedWereMoved(s, keys);
    hide Assignable, Balanced, Redistributed, Moves, Changed, Dist;
    SubsetSize(Changed(s, r), set k | k in Moves(s, keys));
    AsManyAsDistinct(Moves(s, keys));
    forall t | Assignable(t, keys) && |t| == |s| && Balanced(t, keys)
      ensures |Changed(s, r)| <= |Changed(s, t)|
    {
      EvenIsBalanced(t, keys);
      ChangesNeeded(s, t, keys);
    }
  }

  // ----- New groups only

  lemma AheadStays(m: multiset<int>, n: multiset<int>, keys: seq<int>, oldGroups: set<int>, u: int, v: int)
    requires u in keys && v in keys && m[u] > m[v] + 1 && forall h :: h in keys ==> m[h] <= m[u]
    requires n == m - multiset{u} + multiset{v}
    requires forall g, h :: g in keys && h in keys && g in oldGroups ==> m[h] <= m[g] + 1
    ensures v !in oldGroups
    ensures forall g, h :: g in keys && h in keys && g in oldGroups ==> n[h] <= n[g] + 1
  {
    forall g, h | g in keys && h in keys && g in oldGroups ensures n[h] <= n[g] + 1 {
      assert m[h] <= m[g] + 1 && m[u] <= m[g] + 1;
    }
  }

  /** Where the old groups are even among themselves and ahead of the new ones, shards only ever
      move to new groups. */
  lemma {:induction false} MovesGoToNew(s: seq<int>, keys: seq<int>, oldGroups: set<int>)
    requires Assignable(s, keys)
    requires forall g, h :: g in keys && h in keys && g in oldGroups ==> multiset(s)[h] <= multiset(s)[g] + 1
    ensures forall k :: 0 <= k < |s| ==> Redistributed(s, keys)[k] == s[k] || Redistributed(s, keys)[k] !in oldGroups
    decreases Dist(s, keys)
  {
    hide Live, FirstOf, Dist, MaxGroup, MinGroup, NextToMove;
    if Uneven(s, keys) {
      var m := multiset(s);
      var u, v := MaxGroup(m, keys), MinGroup(m, keys);
      MoveReduces(s, keys);
      var n := multiset(MoveOne(s, keys));
      assert n == m - multiset{u} + multiset{v};
      AheadStays(m, n, keys, oldGroups, u, v);
      hide Assignable;
      MovesGoToNew(MoveOne(s, keys), keys, oldGroups);
    }
  }

  // ----- In place

  method RedistributeShards(shards: array<int>, groups: Groups)
    requires groups != map[] && shards.Length <= 256 && Live(shards[..], SortedKeys(groups.Keys))
    modifies shards
    ensures Assignable(old(shards[..]), SortedKeys(groups.Keys))
    ensures shards[..] == Redistributed(old(shards[..]), SortedKeys(groups.Keys))
  {
    ghost var keys := SortedKeys(groups.Keys);
    var min, minGroup, max, maxGroup := GetMinMaxGroup(shards, groups);
    while max - min > 1
      invariant Extremes(multiset(shards[..]), keys, min, minGroup, max, maxGroup)
      invariant Assignable(shards[..], keys)
      invariant Redistributed(shards[..], keys) == Redistributed(old(shards[..]), keys)
      decreases Dist(shards[..], keys)
    {
      ghost var before := shards[..];
      MoveReduces(before, keys);
      MoveFirst(shards, maxGroup, minGroup);
      min, minGroup, max, maxGroup := GetMinMaxGroup(shards, groups);
    }
  }

  method MoveFirst(shards: array<int>, from: int, target: int)
    requires from in shards[..]
    modifies shards
    ensures shards[..] == old(shards[..])[FirstOf(old(shards[..]), from) := target]
  {
    ghost var before := shards[..];
    for k := 0 to shards.Length
      invariant k <= FirstOf(before, from) && shards[..] == before
    {
      if shards[k] == from {
        shards[k] := target;
        return;
      }
    }
  }
}
