/** Stands for the sort package: callers rely only on the result being ordered and a rearrangement. */
module Sorting {

  ghost predicate TotalPreorder<T(!new)>(le: (T, T) -> bool) {
    && (forall x, y :: le(x, y) || le(y, x))
    && (forall x, y, z :: le(x, y) && le(y, z) ==> le(x, z))
  }

  ghost predicate SortedBy<T>(s: seq<T>, le: (T, T) -> bool) {
    forall i, j :: 0 <= i < j < |s| ==> le(s[i], s[j])
  }

  lemma Chain<T(!new)>(le: (T, T) -> bool, x: T, y: T, z: T)
    requires TotalPreorder(le) && le(x, y) && le(y, z)
    ensures le(x, z)
  {
  }

  lemma Inserted<T(!new)>(r: seq<T>, j: nat, x: T, le: (T, T) -> bool)
    requires TotalPreorder(le) && SortedBy(r, le) && j <= |r|
    requires (j > 0 ==> le(r[j - 1], x)) && (j < |r| ==> le(x, r[j]))
    ensures SortedBy(r[..j] + [x] + r[j..], le)
    ensures multiset(r[..j] + [x] + r[j..]) == multiset(r) + multiset{x}
  {
    hide TotalPreorder;
    assert r == r[..j] + r[j..];
    forall k | 0 <= k < j ensures le(r[k], x) {
      if k < j - 1 { Chain(le, r[k], r[j - 1], x); }
    }
    forall k | j <= k < |r| ensures le(x, r[k]) {
      if k > j { Chain(le, x, r[j], r[k]); }
    }
  }

  method Sort<T(!new)>(s: seq<T>, le: (T, T) -> bool) returns (r: seq<T>)
    requires TotalPreorder(le)
    ensures SortedBy(r, le) && multiset(r) == multiset(s)
  {
    hide SortedBy, TotalPreorder;
    r := [];
    EmptySorted(le);
    for i := 0 to |s|
      invariant SortedBy(r, le) && multiset(r) == multiset(s[..i])
    {
      var x, j := s[i], |r|;
      while j > 0 && !le(r[j - 1], x)
        invariant 0 <= j <= |r| && (j < |r| ==> !le(r[j], x))
      {
        j := j - 1;
      }
      EitherWay(le, if j < |r| then r[j] else x, x);
      Inserted(r, j, x, le);
      assert s[..i + 1] == s[..i] + [x];
      r := r[..j] + [x] + r[j..];
    }
    assert s[..|s|] == s;
  }

  lemma EmptySorted<T>(le: (T, T) -> bool)
    ensures SortedBy([], le)
  {
  }

  lemma EitherWay<T(!new)>(le: (T, T) -> bool, x: T, y: T)
    requires TotalPreorder(le)
    ensures !le(x, y) ==> le(y, x)
  {
  }

  // ----- Strings in dictionary order

  predicate AtMost(a: string, b: string) {
    a == "" || (b != "" && (a[0] < b[0] || (a[0] == b[0] && AtMost(a[1..], b[1..]))))
  }

  lemma {:induction false} AtMostTotal(a: string, b: string)
    ensures AtMost(a, b) || AtMost(b, a)
    ensures AtMost(a, b) && AtMost(b, a) ==> a == b
  {
    if a != "" && b != "" {
      AtMostTotal(a[1..], b[1..]);
      assert a == [a[0]] + a[1..] && b == [b[0]] + b[1..];
    }
  }

  lemma {:induction false} AtMostTransitive(a: string, b: string, c: string)
    requires AtMost(a, b) && AtMost(b, c)
    ensures AtMost(a, c)
  {
    if a != "" && b != "" && c != "" && a[0] == b[0] == c[0] {
      AtMostTransitive(a[1..], b[1..], c[1..]);
    }
  }

  lemma AtMostIsOrder()
    ensures TotalPreorder(AtMost)
    ensures forall a, b :: AtMost(a, b) && AtMost(b, a) ==> a == b
  {
    forall a, b ensures AtMost(a, b) || AtMost(b, a) { AtMostTotal(a, b); }
    forall a, b | AtMost(a, b) && AtMost(b, a) ensures a == b { AtMostTotal(a, b); }
    forall a, b, c | AtMost(a, b) && AtMost(b, c) ensures AtMost(a, c) { AtMostTransitive(a, b, c); }
  }
}
