/** The linearizability checker: the search of SearchTheory carried out with the list of
    EntryList, a stack, a bitset, and a cache in buckets. */
module Checker {
  import opened Linearizability
  import opened SearchTheory
  import opened Bitset
  import opened EntryList

  // ----- The cache

  datatype CacheEntry<S> = CacheEntry(linearized: array<Word>, state: S)

  type Cache<S> = map<Word, seq<CacheEntry<S>>>

  ghost function Arrays<S>(cache: Cache<S>): set<array<Word>> {
    set w, j | w in cache && 0 <= j < |cache[w]| :: cache[w][j].linearized
  }

  ghost function ConfigOf<S>(e: CacheEntry<S>): Config<S>
    reads e.linearized
  {
    Config(Contents(e.linearized[..]), e.state)
  }

  ghost predicate At<S>(cache: Cache<S>, w: Word, j: nat) {
    w in cache && j < |cache[w]|
  }

  /** The buckets hold exactly the visited configurations, each under its own hash. */
  ghost predicate CacheRep<S>(cache: Cache<S>, visited: set<Config<S>>, width: nat)
    reads Arrays(cache)
  {
    && (forall w: Word, j: nat {:trigger At(cache, w, j)} :: At(cache, w, j) ==>
          var e := cache[w][j];
          && e.linearized in Arrays(cache) && e.linearized.Length == width
          && HashOf(e.linearized[..]) == w && ConfigOf(e) in visited)
    && (forall c :: c in visited ==> exists w: Word, j: nat ::
          At(cache, w, j) && cache[w][j].linearized in Arrays(cache) && ConfigOf(cache[w][j]) == c)
  }

  method CacheContains<S(==)>(cache: Cache<S>, entry: CacheEntry<S>, ghost visited: set<Config<S>>) returns (r: bool)
    requires CacheRep(cache, visited, entry.linearized.Length)
    ensures r <==> ConfigOf(entry) in visited
  {
    var hash := Hash(entry.linearized);
    var bucket := if hash in cache then cache[hash] else [];
    for i := 0 to |bucket|
      invariant forall j :: 0 <= j < i ==> ConfigOf(bucket[j]) != ConfigOf(entry)
    {
      var elem := bucket[i];
      assert At(cache, hash, i);
      var same := Equals(entry.linearized, elem.linearized);
      if same && entry.state == elem.state {
        return true;
      }
    }
    if ConfigOf(entry) in visited {
      var w: Word, j: nat :|
        At(cache, w, j) && cache[w][j].linearized in Arrays(cache) && ConfigOf(cache[w][j]) == ConfigOf(entry);
      SameContents(cache[w][j].linearized[..], entry.linearized[..]);
      assert false;
    }
    return false;
  }

  function Add<S>(cache: Cache<S>, hash: Word, entry: CacheEntry<S>): Cache<S> {
    cache[hash := (if hash in cache then cache[hash] else []) + [entry]]
  }

  lemma AddAt<S>(cache: Cache<S>, hash: Word, entry: CacheEntry<S>)
    ensures forall w: Word, j: nat :: At(cache, w, j) ==> At(Add(cache, hash, entry), w, j) && Add(cache, hash, entry)[w][j] == cache[w][j]
    ensures forall w: Word, j: nat :: At(Add(cache, hash, entry), w, j) ==>
              (w == hash && Add(cache, hash, entry)[w][j] == entry) || At(cache, w, j)
    ensures exists j: nat :: At(Add(cache, hash, entry), hash, j) && Add(cache, hash, entry)[hash][j] == entry
  {
    var j := if hash in cache then |cache[hash]| else 0;
    assert At(Add(cache, hash, entry), hash, j) && Add(cache, hash, entry)[hash][j] == entry;
  }

  lemma ArraysGrow<S>(cache: Cache<S>, hash: Word, entry: CacheEntry<S>)
    ensures Arrays(Add(cache, hash, entry)) == Arrays(cache) + {entry.linearized}
  {
    var cache': Cache<S> := Add(cache, hash, entry);
    AddAt(cache, hash, entry);
    forall a | a in Arrays(cache) ensures a in Arrays(cache') {
      var w, j :| w in cache && 0 <= j < |cache[w]| && cache[w][j].linearized == a;
      assert At(cache, w, j) && At(cache', w, j);
    }
    forall a | a in Arrays(cache') ensures a in Arrays(cache) + {entry.linearized} {
      var w, j :| w in cache' && 0 <= j < |cache'[w]| && cache'[w][j].linearized == a;
      assert At(cache', w, j);
    }
  }

  /** Putting an entry at the end of the bucket of its hash. */
  lemma CacheAdds<S>(cache: Cache<S>, entry: CacheEntry<S>, visited: set<Config<S>>)
    requires CacheRep(cache, visited, entry.linearized.Length)
    ensures var cache' := Add(cache, HashOf(entry.linearized[..]), entry);
            && Arrays<S>(cache') == Arrays(cache) + {entry.linearized}
            && CacheRep(cache', visited + {ConfigOf(entry)}, entry.linearized.Length)
  {
    var hash := HashOf(entry.linearized[..]);
    var cache': Cache<S> := Add(cache, hash, entry);
    AddAt(cache, hash, entry);
    ArraysGrow(cache, hash, entry);
    forall c | c in visited + {ConfigOf(entry)}
      ensures exists w: Word, j: nat ::
                At(cache', w, j) && cache'[w][j].linearized in Arrays(cache') && ConfigOf(cache'[w][j]) == c
    {
      if c == ConfigOf(entry) {
        var j: nat :| At(cache', hash, j) && cache'[hash][j] == entry;
      } else {
        var w: Word, j: nat :| At(cache, w, j) && cache[w][j].linearized in Arrays(cache) && ConfigOf(cache[w][j]) == c;
        assert At(cache', w, j);
      }
    }
  }

  // ----- The list

  /** The places of the operations still to be put in order, counted from 1, and the head at 0. */
  ghost function Live<I, O>(h: seq<Entry<I, O>>, done: set<nat>): set<nat> {
    {0} + set k: nat | 1 <= k <= |h| && Pending(h, done, k)
  }

  ghost predicate Pending<I, O>(h: seq<Entry<I, O>>, done: set<nat>, k: nat)
    requires 1 <= k <= |h|
  {
    h[k - 1].id !in done
  }

  ghost predicate Nodes<I(!new), O(!new)>(h: seq<Entry<I, O>>, full: seq<Node<I, O>>) {
    && IsHistory(h) && |full| == |h| + 1 && Indexed(full)
    && forall k: nat :: 1 <= k <= |h| ==>
         && IsNodeOf(full[k], h[k - 1])
         && (h[k - 1].CallEntry? ==> full[k].matching == full[ReturnAt(h, h[k - 1].id)])
  }

  lemma OperationPlaces<I, O>(h: seq<Entry<I, O>>, done: set<nat>, x: nat)
    requires IsHistory(h) && x < |h| / 2 && x !in done
    ensures CallAt(h, x) in Live(h, done) && ReturnAt(h, x) in Live(h, done)
    ensures Live(h, done + {x}) == Live(h, done) - {CallAt(h, x)} - {ReturnAt(h, x)}
  {
    assert Placed(h, x, CallAt(h, x) - 1, ReturnAt(h, x) - 1);
  }

  /** The list is the original one without the stacked operations, and every stacked operation still
      points to where it was when it was taken out. */
  ghost predicate ListRep<I(!new), O(!new)>(h: seq<Entry<I, O>>, full: seq<Node<I, O>>, path: seq<nat>)
    requires Nodes(h, full) && ValidIds(path, |h| / 2)
    reads full
  {
    && Linked(full, Live(h, IdSet(path)))
    && forall d: nat :: d < |path| ==> Remembers(h, full, path, d)
  }

  ghost predicate Remembers<I(!new), O(!new)>(h: seq<Entry<I, O>>, full: seq<Node<I, O>>, path: seq<nat>, d: nat)
    requires Nodes(h, full) && ValidIds(path, |h| / 2) && d < |path|
    reads full[CallAt(h, path[d])], full[ReturnAt(h, path[d])]
  {
    var live := Live(h, IdSet(path[..d]));
    && LinkedAt(full, live, CallAt(h, path[d]))
    && LinkedAt(full, live - {CallAt(h, path[d])}, ReturnAt(h, path[d]))
  }

  /** What a stacked operation remembers depends only on the stack below it. */
  lemma SameMemory<I(!new), O(!new)>(h: seq<Entry<I, O>>, full: seq<Node<I, O>>, path: seq<nat>, x: nat)
    requires Nodes(h, full) && ValidIds(path, |h| / 2) && x < |h| / 2
    ensures forall d: nat :: d < |path| ==> Remembers(h, full, path + [x], d) == Remembers(h, full, path, d)
    ensures IdSet(path + [x]) == IdSet(path) + {x}
  {
    LongerPath(path, x);
  }

  lemma NewMemory<I(!new), O(!new)>(h: seq<Entry<I, O>>, full: seq<Node<I, O>>, path: seq<nat>, x: nat)
    requires Nodes(h, full) && ValidIds(path, |h| / 2) && x < |h| / 2 && x !in path
    ensures Remembers(h, full, path + [x], |path|) <==>
            && LinkedAt(full, Live(h, IdSet(path)), CallAt(h, x))
            && LinkedAt(full, Live(h, IdSet(path)) - {CallAt(h, x)}, ReturnAt(h, x))
  {
    LongerPath(path, x);
    assert (path + [x])[|path|] == x && (path + [x])[..|path|] == path;
  }

  method TakeOut<I(!new), O(!new)>(entry: Node<I, O>, ghost h: seq<Entry<I, O>>, ghost full: seq<Node<I, O>>,
                                   ghost path: seq<nat>, ghost x: nat)
    requires Nodes(h, full) && ValidIds(path, |h| / 2) && x < |h| / 2 && x !in path
    requires entry == full[CallAt(h, x)]
    requires ListRep(h, full, path)
    modifies full
    ensures ListRep(h, full, path + [x])
  {
    ghost var live := Live(h, IdSet(path));
    OperationPlaces(h, IdSet(path), x);
    Lift(entry, full, live, CallAt(h, x), ReturnAt(h, x));
    NewMemory(h, full, path, x);
    SameMemory(h, full, path, x);
    forall d: nat | d < |path| ensures Remembers(h, full, path, d) {
      assert old(Remembers(h, full, path, d));
      StackedPlaces(h, path, d);
    }
  }

  /** A stacked operation is not in the list. */
  lemma StackedPlaces<I, O>(h: seq<Entry<I, O>>, path: seq<nat>, d: nat)
    requires IsHistory(h) && ValidIds(path, |h| / 2) && d < |path|
    ensures CallAt(h, path[d]) !in Live(h, IdSet(path))
    ensures ReturnAt(h, path[d]) !in Live(h, IdSet(path))
  {
    assert path[d] in IdSet(path);
  }

  method PutBack<I(!new), O(!new)>(entry: Node<I, O>, ghost h: seq<Entry<I, O>>, ghost full: seq<Node<I, O>>,
                                   ghost front: seq<nat>, ghost x: nat)
    requires Nodes(h, full) && ValidIds(front, |h| / 2) && x < |h| / 2 && x !in front
    requires entry == full[CallAt(h, x)]
    requires ListRep(h, full, front + [x])
    modifies full
    ensures ListRep(h, full, front)
  {
    ghost var live := Live(h, IdSet(front));
    OperationPlaces(h, IdSet(front), x);
    NewMemory(h, full, front, x);
    SameMemory(h, full, front, x);
    Unlift(entry, full, live, CallAt(h, x), ReturnAt(h, x));
    forall d: nat | d < |front| ensures Remembers(h, full, front, d) {
      assert old(Remembers(h, full, front, d));
      StackedPlaces(h, front, d);
    }
  }

  // ----- The cursor

  lemma HistoryTimes<I, O>(h: seq<Entry<I, O>>)
    requires IsHistory(h)
    ensures Timed(OperationsOf(h)) && DistinctTimes(OperationsOf(h))
    ensures forall x: nat :: x < |h| / 2 ==>
              OperationsOf(h)[x].call == CallAt(h, x) && OperationsOf(h)[x].ret == ReturnAt(h, x)
  {
    forall x: nat, y: nat | x < |h| / 2 && y < |h| / 2
      ensures CallAt(h, x) != ReturnAt(h, y)
      ensures x != y ==> CallAt(h, x) != CallAt(h, y) && ReturnAt(h, x) != ReturnAt(h, y)
    {
      assert Placed(h, x, CallAt(h, x) - 1, ReturnAt(h, x) - 1);
      assert Placed(h, y, CallAt(h, y) - 1, ReturnAt(h, y) - 1);
    }
  }

  /** The cursor stands on an entry that is in the list, or has run off an empty list. */
  ghost predicate Cursor<I(!new), O(!new)>(h: seq<Entry<I, O>>, full: seq<Node<I, O>>, path: seq<nat>, entry: Node?<I, O>, at: nat)
    requires Nodes(h, full)
  {
    var live := Live(h, IdSet(path));
    if at <= |h| then
      0 < at && at in live && entry == full[at]
    else
      at == |h| + 1 && Next(live, 0, |h| + 1) == |h| + 1
  }

  lemma {:induction false} FirstInList<I, O>(h: seq<Entry<I, O>>, path: seq<nat>, first: nat)
    requires IsHistory(h) && first == Next(Live(h, IdSet(path)), 0, |h| + 1)
    ensures forall y: nat :: y < |h| / 2 && y !in path ==> first <= OperationsOf(h)[y].call
    ensures Quiet(OperationsOf(h), path, -1, first)
    ensures first == |h| + 1 ==> forall y: nat :: y < |h| / 2 ==> y in path
  {
    HistoryTimes(h);
    forall y: nat | y < |h| / 2 && y !in path
      ensures first <= OperationsOf(h)[y].call
    {
      OperationPlaces(h, IdSet(path), y);
    }
  }

  lemma {:induction false} NextInList<I, O>(h: seq<Entry<I, O>>, path: seq<nat>, at: nat, next: nat)
    requires IsHistory(h) && at <= |h| && next == Next(Live(h, IdSet(path)), at, |h| + 1)
    ensures Quiet(OperationsOf(h), path, at, next)
  {
    HistoryTimes(h);
    forall y: nat | y < |h| / 2 && y !in path
      ensures !(at < OperationsOf(h)[y].call < next) && !(at < OperationsOf(h)[y].ret < next)
    {
      OperationPlaces(h, IdSet(path), y);
    }
  }

  /** A call in the list has its return behind it, so something follows it. */
  lemma {:induction false} CallIsNotLast<I, O>(h: seq<Entry<I, O>>, path: seq<nat>, x: nat)
    requires IsHistory(h) && x < |h| / 2 && x !in path
    ensures Next(Live(h, IdSet(path)), CallAt(h, x), |h| + 1) <= |h|
  {
    OperationPlaces(h, IdSet(path), x);
  }

  /** What stands under the cursor. */
  lemma CursorEntry<I(!new), O(!new)>(h: seq<Entry<I, O>>, full: seq<Node<I, O>>, path: seq<nat>, entry: Node<I, O>, at: nat)
    requires Nodes(h, full) && at <= |h| && Cursor(h, full, path, entry, at)
    ensures 0 <= entry.id < |h| / 2 && entry.id !in path && entry == full[at]
    ensures entry.matching != null ==>
              && CallAt(h, entry.id) == at && entry.matching == full[ReturnAt(h, entry.id)]
              && entry.value == In(OperationsOf(h)[entry.id].input)
              && entry.matching.value == Out(OperationsOf(h)[entry.id].output)
    ensures entry.matching == null ==> ReturnAt(h, entry.id) == at
  {
    OwnPlace(h, at - 1);
    assert IsNodeOf(full[at], h[at - 1]);
    assert IsNodeOf(full[ReturnAt(h, entry.id)], h[ReturnAt(h, entry.id) - 1]);
    assert Placed(h, entry.id, CallAt(h, entry.id) - 1, ReturnAt(h, entry.id) - 1);
  }

  lemma {:induction false} CursorAdvances<I(!new), O(!new)>(h: seq<Entry<I, O>>, full: seq<Node<I, O>>, path: seq<nat>, entry: Node<I, O>, at: nat)
    requires Nodes(h, full) && at <= |h| && Cursor(h, full, path, entry, at) && entry.matching != null
    requires ValidIds(path, |h| / 2) && ListRep(h, full, path)
    ensures Cursor(h, full, path, entry.next, Next(Live(h, IdSet(path)), at, |h| + 1))
  {
    CursorEntry(h, full, path, entry, at);
    CallIsNotLast(h, path, entry.id);
    assert LinkedAt(full, Live(h, IdSet(path)), at);
  }

  lemma {:induction false} CursorAtFirst<I(!new), O(!new)>(h: seq<Entry<I, O>>, full: seq<Node<I, O>>, path: seq<nat>, head: Node<I, O>)
    requires Nodes(h, full) && ValidIds(path, |h| / 2) && ListRep(h, full, path) && full[0] == head
    ensures Cursor(h, full, path, head.next, Next(Live(h, IdSet(path)), 0, |h| + 1))
  {
    assert LinkedAt(full, Live(h, IdSet(path)), 0);
  }

  // ----- The search

  datatype CallsEntry<S, I(!new), O(!new)> = CallsEntry(entry: Node<I, O>, state: S)

  /** The variables of the search. The ghost ones say where it is in the terms of SearchTheory: the
      operations on the stack, the states along it, the cached configurations, and the cursor. */
  class Search<S(==), I(!new), O(!new)> {
    const model: Model<S, I, O>
    ghost const h: seq<Entry<I, O>>
    ghost const full: seq<Node<I, O>>
    const head: Node<I, O>
    const linearized: array<Word>
    var entry: Node?<I, O>
    var state: S
    var calls: seq<CallsEntry<S, I, O>>
    var cache: Cache<S>
    var longest: seq<Option<seq<nat>>>

    ghost var path: seq<nat>
    ghost var states: seq<S>
    ghost var visited: set<Config<S>>
    ghost var at: nat

    ghost predicate ValidPath()
      reads this
    {
      IsHistory(h) && Nodes(h, full) && full[0] == head && ValidIds(path, |h| / 2) && |states| == |path| + 1
      && |longest| == |h| / 2
    }

    /** The stack holds the call nodes of the operations placed and the states before them. */
    ghost predicate ValidStack()
      requires ValidPath()
      reads this
    {
      && |calls| == |path| && state == states[|path|]
      && forall d: nat :: d < |path| ==>
           calls[d].entry == full[CallAt(h, path[d])] && calls[d].entry.id == path[d] && calls[d].state == states[d]
    }

    ghost predicate ValidList()
      requires ValidPath()
      reads this, full
    {
      ListRep(h, full, path) && Cursor(h, full, path, entry, at)
    }

    ghost predicate ValidCache()
      reads this, linearized, Arrays(cache)
    {
      && |h| / 2 <= WORD * linearized.Length && Contents(linearized[..]) == IdSet(path)
      && linearized !in Arrays(cache) && CacheRep(cache, visited, linearized.Length)
    }

    ghost predicate ValidSearch()
      requires IsHistory(h)
      reads this
    {
      SearchInv(model, OperationsOf(h), path, states, visited, at)
    }

    ghost predicate Valid()
      reads this, full, linearized, Arrays(cache)
    {
      ValidPath() && ValidStack() && ValidList() && ValidCache() && ValidSearch()
    }

    ghost predicate ValidLongest()
      requires ValidPath()
      reads this
    {
      LongestInv(model, OperationsOf(h), path, states, visited, longest)
    }

    constructor (model: Model<S, I, O>, ghost h: seq<Entry<I, O>>, ghost full: seq<Node<I, O>>, head: Node<I, O>,
                 linearized: array<Word>, n: nat)
      requires Nodes(h, full) && full[0] == head && Linked(full, Live(h, {}))
      requires n == |h| / 2 <= WORD * linearized.Length && Contents(linearized[..]) == {}
      ensures this.model == model && this.h == h && this.full == full && this.head == head && this.linearized == linearized
      ensures Valid() && ValidLongest() && path == [] && visited == {}
    {
      ghost var first := Next(Live(h, {}), 0, |h| + 1);
      this.model, this.h, this.full, this.head, this.linearized := model, h, full, head, linearized;
      entry, state, calls, cache, longest := head.next, model.init, [], map[], seq(n, _ => None);
      path, states, visited, at := [], [model.init], {}, first;
      new;
      assert LinkedAt(full, Live(h, {}), 0);
      assert IdSet([]) == {};
      FirstInList(h, [], first);
      HistoryTimes(h);
      SearchTheory.Start(model, OperationsOf(h), first);
      assert Arrays(cache) == {};
    }

    /** As long as there is an entry in the list, the cursor stands on one. */
    lemma CursorInList()
      requires Valid() && head.next != null
      ensures at <= |h| && entry != null
    {
      assert LinkedAt(full, Live(h, IdSet(path)), 0);
    }

    /** An empty list means that the stack is a linearization. */
    lemma Done()
      requires Valid() && head.next == null
      ensures LinearizationById(model, OperationsOf(h), path)
      ensures forall i: nat :: i < |h| / 2 ==> IsLongest(model, OperationsOf(h), i, Some(path))
    {
      hide LongestInv, CacheRep, Contents;
      assert LinkedAt(full, Live(h, IdSet(path)), 0);
      FirstInList(h, path, |h| + 1);
      HistoryTimes(h);
      Found(model, OperationsOf(h), path, states);
      forall i: nat | i < |h| / 2 ensures IsLongest(model, OperationsOf(h), i, Some(path)) {
        FoundLongest(model, OperationsOf(h), path, i);
      }
    }

    /** A return under the cursor and nothing on the stack mean that there is none. */
    lemma Refuted(computePartial: bool)
      requires Valid() && at <= |h| && entry != null && entry.matching == null && calls == []
      requires computePartial ==> ValidLongest()
      ensures !exists ids :: LinearizationById(model, OperationsOf(h), ids)
      ensures computePartial ==> forall i: nat :: i < |h| / 2 ==> IsLongest(model, OperationsOf(h), i, longest[i])
    {
      hide Live, Next, IsHistory, Nodes, ListRep, Cursor, CacheRep, Contents, SearchInv, LongestInv, IsLongest;
      CursorEntry(h, full, path, entry, at);
      HistoryTimes(h);
      if computePartial {
        NotFoundLongest(model, OperationsOf(h), states, visited, longest, entry.id);
      }
      if ids :| LinearizationById(model, OperationsOf(h), ids) {
        NotFound(model, OperationsOf(h), states, visited, entry.id, ids);
      }
    }

    /** The cursor moves on to the next entry. */
    method Advance()
      requires Valid() && at <= |h| && entry != null && entry.matching != null
      requires ghost var x := entry.id as nat;
               CanStep(model, OperationsOf(h), Top(path, states), x) ==> After(model, OperationsOf(h), Top(path, states), x) in visited
      modifies this`entry, this`at
      ensures Valid() && at > old(at)
    {
      hide Live, Next, IdSet, IsHistory, Nodes, ListRep, Cursor, CacheRep, Contents, SearchInv, CanStep, After, Top, OperationsOf;
      CursorEntry(h, full, path, entry, at);
      ghost var x := entry.id as nat;
      ghost var next := Next(Live(h, IdSet(path)), at, |h| + 1);
      CursorAdvances(h, full, path, entry, at);
      NextInList(h, path, at, next);
      HistoryTimes(h);
      Pass(model, OperationsOf(h), path, states, visited, x, next);
      entry := entry.next;
      at := next;
    }

    /** A new configuration goes into its bucket. */
    method Remember(newLinearized: array<Word>, newState: S)
      requires ValidCache() && newLinearized.Length == linearized.Length && newLinearized != linearized
      modifies this`cache, this`visited
      ensures ValidCache() && visited == old(visited) + {Config(Contents(newLinearized[..]), newState)}
    {
      hide CacheRep, Contents, IdSet, Add;
      var hash := Hash(newLinearized);
      var newEntry := CacheEntry(newLinearized, newState);
      CacheAdds(cache, newEntry, visited);
      cache := Add(cache, hash, newEntry);
      visited := visited + {Config(Contents(newLinearized[..]), newState)};
    }

    /** The operation under the cursor goes onto the stack and into the bitset, and out of the list. */
    method Push(newState: S)
      requires ValidPath() && ValidStack() && ValidList()
      requires |h| / 2 <= WORD * linearized.Length && Contents(linearized[..]) == IdSet(path)
      requires at <= |h| && entry != null && entry.matching != null
      modifies this`entry, this`state, this`calls, this`path, this`states, this`at, full, linearized
      ensures ValidPath() && ValidStack() && ValidList()
      ensures Contents(linearized[..]) == IdSet(path)
      ensures old(entry).id >= 0 && path == old(path) + [old(entry).id] && states == old(states) + [newState]
      ensures at == Next(Live(h, IdSet(path)), 0, |h| + 1)
    {
      hide Live, Next, IsHistory, Nodes, ListRep, Cursor, Contents, IdSet;
      CursorEntry(h, full, path, entry, at);
      ghost var x := entry.id as nat;
      LongerPath(path, x);
      calls := calls + [CallsEntry(entry, state)];
      state := newState;
      Set(linearized, entry.id as nat);
      TakeOut(entry, h, full, path, x);
      path, states := path + [x], states + [newState];
      CursorAtFirst(h, full, path, head);
      at := Next(Live(h, IdSet(path)), 0, |h| + 1);
      entry := head.next;
    }

    /** The operation under the cursor is put next, and the configuration it leads to is remembered. */
    method Take(newLinearized: array<Word>, newState: S)
      requires Valid() && at <= |h| && entry != null && entry.matching != null
      requires ghost var x := entry.id as nat;
               && CanStep(model, OperationsOf(h), Top(path, states), x)
               && After(model, OperationsOf(h), Top(path, states), x) == Config(Contents(newLinearized[..]), newState)
               && After(model, OperationsOf(h), Top(path, states), x) !in visited
      requires newLinearized.Length == linearized.Length && newLinearized != linearized
      modifies this, full, linearized
      ensures Valid() && longest == old(longest)
      ensures old(ValidLongest()) ==> ValidLongest()
      ensures |Reachable(model, OperationsOf(h), |h| / 2) - visited| < |Reachable(model, OperationsOf(h), |h| / 2) - old(visited)|
    {
      hide Live, Next, IsHistory, Nodes, ListRep, Cursor, CacheRep, Contents, SearchInv, CanStep, LongestInv, HashOf;
      hide Reachable, OperationsOf, IdSet, After, Add, Top;
      CursorEntry(h, full, path, entry, at);
      ghost var x := entry.id as nat;
      ghost var next := Next(Live(h, IdSet(path + [x])), 0, |h| + 1);
      TakeKnows(model, h, path, states, visited, longest, Config(Contents(newLinearized[..]), newState), x, next);
      Remember(newLinearized, newState);
      Push(newState);
    }

    /** The cursor stands on a call: put the operation next if it can be and that leads to a
        configuration not seen before, or else move on. */
    method TryCall()
      requires Valid() && at <= |h| && entry != null && entry.matching != null
      modifies this, full, linearized
      ensures Valid() && longest == old(longest)
      ensures old(ValidLongest()) ==> ValidLongest()
      ensures || |Reachable(model, OperationsOf(h), |h| / 2) - visited| < |Reachable(model, OperationsOf(h), |h| / 2) - old(visited)|
              || (visited == old(visited) && path == old(path) && at > old(at))
    {
      hide Live, Next, IsHistory, Nodes, ListRep, Cursor, CacheRep, Contents, SearchInv, LongestInv, HashOf;
      hide Reachable, OperationsOf, IdSet, Enabled;
      CursorEntry(h, full, path, entry, at);
      ghost var x := entry.id as nat;
      TryKnows(model, h, path, states, visited, x);
      var matching := entry.matching;
      var (ok, newState) := model.step(state, entry.value.input, matching.value.output);
      if ok {
        var newLinearized := Clone(linearized);
        Set(newLinearized, entry.id as nat);
        var seen := CacheContains(cache, CacheEntry(newLinearized, newState), visited);
        if !seen {
          Take(newLinearized, newState);
        } else {
          Advance();
        }
      } else {
        Advance();
      }
    }

    /** The ids on the stack. */
    method StackIds() returns (ids: seq<nat>)
      requires ValidPath() && ValidStack()
      ensures ids == path
    {
      ids := [];
      for i := 0 to |calls|
        invariant ids == path[..i]
      {
        ids := ids + [calls[i].entry.id];
      }
    }

    /** The stack becomes the sequence recorded for those of its operations that have only been seen
        in shorter ones. */
    method RecordLongest()
      requires ValidPath() && ValidStack()
      modifies this`longest
      ensures |longest| == |h| / 2
      ensures forall i: nat :: i < |h| / 2 ==>
                longest[i] == if i in path then Better(old(longest[i]), path) else old(longest[i])
    {
      var callsLen := |calls|;
      var ids: Option<seq<nat>> := None;
      for d := 0 to |calls|
        invariant |longest| == |h| / 2 && (ids.Some? ==> ids.value == path)
        invariant forall i: nat :: i < |h| / 2 ==>
                    longest[i] == if i in path[..d] then Better(old(longest[i]), path) else old(longest[i])
      {
        var id := calls[d].entry.id;
        assert path[..d + 1] == path[..d] + [path[d]];
        if longest[id] == None || callsLen > |longest[id].value| {
          if ids == None {
            var made := StackIds();
            ids := Some(made);
          }
          longest := longest[id := ids];
        }
      }
      assert path[..|calls|] == path;
    }

    /** The operation on top of the stack goes out of the bitset and back into the list, and the
        cursor behind its call. */
    method Pop()
      requires ValidPath() && ValidStack() && ListRep(h, full, path)
      requires |h| / 2 <= WORD * linearized.Length && Contents(linearized[..]) == IdSet(path)
      requires calls != [] && path[|path| - 1] !in path[..|path| - 1]
      modifies this`entry, this`state, this`calls, this`path, this`states, this`at, full, linearized
      ensures ValidPath() && ValidStack() && ValidList()
      ensures Contents(linearized[..]) == IdSet(path)
      ensures path == old(path[..|path| - 1]) && states == old(states[..|path|])
      ensures at == Next(Live(h, IdSet(path)), CallAt(h, old(path[|path| - 1])), |h| + 1)
    {
      hide Live, Next, IsHistory, Nodes, ListRep, Cursor, Contents, IdSet;
      ghost var front, x := path[..|path| - 1], path[|path| - 1];
      LongerPath(front, x);
      assert path == front + [x];
      var callsTop := calls[|calls| - 1];
      entry := callsTop.entry;
      state := callsTop.state;
      Clear(linearized, entry.id as nat);
      assert x !in IdSet(front) by { InIdSet(front, x); }
      calls := calls[..|calls| - 1];
      PutBack(entry, h, full, front, x);
      CursorBehind(h, full, front, x);
      path, states := front, states[..|path|];
      at := Next(Live(h, IdSet(path)), CallAt(h, x), |h| + 1);
      entry := entry.next;
    }

    /** The cursor stands on a return: undo what was done last and go on behind it. */
    method GoBack(computePartial: bool)
      requires Valid() && at <= |h| && entry != null && entry.matching == null && calls != []
      requires computePartial ==> ValidLongest()
      modifies this, full, linearized
      ensures Valid() && visited == old(visited) && |path| < |old(path)|
      ensures computePartial ==> ValidLongest()
    {
      hide Live, Next, IsHistory, Nodes, ListRep, Cursor, CacheRep, Contents, SearchInv, LongestInv, HashOf, Track;
      hide OperationsOf, IdSet, Distinct;
      CursorEntry(h, full, path, entry, at);
      ghost var next := Next(Live(h, IdSet(path[..|path| - 1])), CallAt(h, path[|path| - 1]), |h| + 1);
      SearchTracks(model, h, path, states, visited, at);
      GoBackKnows(model, h, path, states, visited, entry.id, next);
      if computePartial {
        RecordLongest();
        GoBackLongest(model, OperationsOf(h), path, states, visited, old(longest), longest);
      }
      Pop();
    }
  }

  lemma SearchTracks<S, I, O>(m: Model<S, I, O>, h: seq<Entry<I, O>>, path: seq<nat>, states: seq<S>, visited: set<Config<S>>,
                              at: int)
    requires IsHistory(h) && path != [] && SearchInv(m, OperationsOf(h), path, states, visited, at)
    ensures Track(m, OperationsOf(h), path, states)
    ensures path[|path| - 1] !in path[..|path| - 1]
  {
    PathIsPartial(m, OperationsOf(h), path, states);
  }

  lemma TryKnows<S, I, O>(m: Model<S, I, O>, h: seq<Entry<I, O>>, path: seq<nat>, states: seq<S>, visited: set<Config<S>>, x: nat)
    requires IsHistory(h) && x < |h| / 2 && x !in path && |states| == |path| + 1
    requires SearchInv(m, OperationsOf(h), path, states, visited, CallAt(h, x))
    ensures Enabled(OperationsOf(h), IdSet(path), x)
  {
    HistoryTimes(h);
    UnderCursor(m, OperationsOf(h), path, states, visited, x);
  }

  lemma {:induction false} GoBackKnows<S, I, O>(m: Model<S, I, O>, h: seq<Entry<I, O>>, path: seq<nat>, states: seq<S>, visited: set<Config<S>>,
                             y: nat, next: nat)
    requires IsHistory(h) && y < |h| / 2 && y !in path && path != [] && |states| == |path| + 1
    requires SearchInv(m, OperationsOf(h), path, states, visited, ReturnAt(h, y))
    requires path[|path| - 1] < |h| / 2
    requires next == Next(Live(h, IdSet(path[..|path| - 1])), CallAt(h, path[|path| - 1]), |h| + 1)
    ensures SearchInv(m, OperationsOf(h), path[..|path| - 1], states[..|path|], visited, next)
  {
    hide Live, Next, SearchInv, Timed, DistinctTimes, Quiet, IdSet;
    HistoryTimes(h);
    NextInList(h, path[..|path| - 1], CallAt(h, path[|path| - 1]), next);
    SearchTheory.GoBack(m, OperationsOf(h), path, states, visited, y, next);
  }

  lemma {:induction false} CursorBehind<I(!new), O(!new)>(h: seq<Entry<I, O>>, full: seq<Node<I, O>>, path: seq<nat>, x: nat)
    requires Nodes(h, full) && ValidIds(path, |h| / 2) && ListRep(h, full, path) && x < |h| / 2 && x !in path
    ensures Cursor(h, full, path, full[CallAt(h, x)].next, Next(Live(h, IdSet(path)), CallAt(h, x), |h| + 1))
  {
    OperationPlaces(h, IdSet(path), x);
    CallIsNotLast(h, path, x);
    assert LinkedAt(full, Live(h, IdSet(path)), CallAt(h, x));
  }

  lemma {:induction false} TakeKnows<S, I, O>(m: Model<S, I, O>, h: seq<Entry<I, O>>, path: seq<nat>, states: seq<S>, visited: set<Config<S>>,
                           longest: seq<Option<seq<nat>>>, c: Config<S>, x: nat, next: nat)
    requires IsHistory(h) && x < |h| / 2 && x !in path && |states| == |path| + 1
    requires SearchInv(m, OperationsOf(h), path, states, visited, CallAt(h, x))
    requires CanStep(m, OperationsOf(h), Top(path, states), x)
    requires c == After(m, OperationsOf(h), Top(path, states), x) && c !in visited
    requires next == Next(Live(h, IdSet(path + [x])), 0, |h| + 1)
    ensures SearchInv(m, OperationsOf(h), path + [x], states + [c.state], visited + {c}, next)
    ensures LongestInv(m, OperationsOf(h), path, states, visited, longest)
        ==> LongestInv(m, OperationsOf(h), path + [x], states + [c.state], visited + {c}, longest)
    ensures |Reachable(m, OperationsOf(h), |h| / 2) - (visited + {c})| < |Reachable(m, OperationsOf(h), |h| / 2) - visited|
    ensures c.done == IdSet(path) + {x} == IdSet(path + [x])
  {
    hide Live, Next, SearchInv, CanStep, LongestInv, Reachable, IdSet;
    HistoryTimes(h);
    FirstInList(h, path + [x], next);
    LongerPath(path, x);
    SearchTheory.Take(m, OperationsOf(h), path, states, visited, x, next);
    if LongestInv(m, OperationsOf(h), path, states, visited, longest) {
      TakeLongest(m, OperationsOf(h), path, states, visited, longest, x);
    }
  }

  // ----- The checker

  /** The head in front of the entries. */
  ghost function FullList<I(!new), O(!new)>(head: Node<I, O>, ns: seq<Node?<I, O>>): (full: seq<Node<I, O>>)
    requires forall k: nat :: k < |ns| ==> ns[k] != null
    ensures |full| == |ns| + 1 && full[0] == head && forall k: nat :: 1 <= k <= |ns| ==> full[k] == ns[k - 1]
  {
    seq(|ns| + 1, k requires 0 <= k <= |ns| => if k == 0 then head else ns[k - 1])
  }

  /** An entry's node behind the head. */
  ghost predicate InChain<I(!new), O(!new)>(h: seq<Entry<I, O>>, head: Node<I, O>, ns: seq<Node?<I, O>>, k: nat)
    requires IsHistory(h) && |ns| == |h| && k < |h|
    reads ns[k]
  {
    && ns[k] != null && ns[k].pos == k + 1 && IsNodeOf(ns[k], h[k])
    && ns[k].next == (if k + 1 < |h| then ns[k + 1] else null)
    && ns[k].prev == (if k > 0 then ns[k - 1] else head)
    && (h[k].CallEntry? ==> ns[k].matching == ns[ReturnAt(h, h[k].id) - 1])
  }

  lemma FullLinked<I(!new), O(!new)>(h: seq<Entry<I, O>>, head: Node<I, O>, ns: seq<Node?<I, O>>)
    requires IsHistory(h) && |ns| == |h|
    requires head.pos == 0 && head.prev == null && head.next == if h == [] then null else ns[0]
    requires forall k: nat :: k < |h| ==> ns[k] != null
    requires forall k: nat :: k < |h| ==> InChain(h, head, ns, k)
    ensures Nodes(h, FullList(head, ns)) && Linked(FullList(head, ns), Live(h, {}))
  {
    var full := FullList(head, ns);
    forall k: nat | 1 <= k <= |h|
      ensures full[k].pos == k && IsNodeOf(full[k], h[k - 1])
      ensures h[k - 1].CallEntry? ==> full[k].matching == full[ReturnAt(h, h[k - 1].id)]
    {
      assert InChain(h, head, ns, k - 1);
    }
    forall i: nat | i < |full|
      ensures full[i].next == NodeAt(full, i + 1) && full[i].prev == NodeAt(full, i - 1)
    {
      if i == 0 {
        assert h != [] ==> full[1] == ns[0];
        assert head.next == NodeAt(full, 1);
      } else {
        var k: nat := i - 1;
        assert full[i] == ns[k] && (k > 0 ==> full[k] == ns[k - 1]) && (i < |h| ==> full[i + 1] == ns[i]);
        assert InChain(h, head, ns, k);
      }
    }
    AllLive(h);
    ChainLinked(full, Live(h, {}));
  }

  /** With every position in the list, the neighbours are the positions next to it. */
  lemma ChainLinked<I(!new), O(!new)>(full: seq<Node<I, O>>, live: set<nat>)
    requires forall i: nat :: i in live <==> i < |full|
    requires forall i: nat :: i < |full| ==> full[i].next == NodeAt(full, i + 1) && full[i].prev == NodeAt(full, i - 1)
    ensures Linked(full, live)
  {
    forall i: nat | i < |full| ensures LinkedAt(full, live, i) {
      NextIs(live, i, |full|, i + 1);
      PrevIs(live, i, i - 1);
    }
  }

  lemma AllLive<I, O>(h: seq<Entry<I, O>>)
    ensures forall i: nat :: i in Live(h, {}) <==> i <= |h|
  {
  }

  /** The list of entries behind a head, ready for the search. */
  method MakeSearch<S(==), I(!new), O(!new)>(model: Model<S, I, O>, h: seq<Entry<I, O>>) returns (search: Search<S, I, O>)
    requires IsHistory(h)
    ensures fresh(search) && fresh(search.linearized) && forall k: nat :: k < |search.full| ==> fresh(search.full[k])
    ensures search.model == model && search.h == h && search.visited == {} && search.path == []
    ensures search.Valid() && search.ValidLongest()
  {
    var entry, ns := MakeLinkedEntries(h);
    var size := Length(entry, h, ns);
    var n := size / 2;
    var linearized := NewBitset(n);
    var headEntry := PutHead(h, entry, ns);
    search := new Search(model, h, FullList(headEntry, ns), headEntry, linearized, n);
  }

  /** A head in front of the list. */
  method PutHead<I(!new), O(!new)>(h: seq<Entry<I, O>>, entry: Node?<I, O>, ghost ns: seq<Node?<I, O>>) returns (head: Node<I, O>)
    requires IsHistory(h) && |ns| == |h| && Built(h, ns, 0) && entry == if h == [] then null else ns[0]
    modifies entry
    ensures fresh(head) && (forall k: nat :: k < |h| ==> ns[k] != null)
    ensures Nodes(h, FullList(head, ns)) && Linked(FullList(head, ns), Live(h, {}))
  {
    assert forall k: nat :: k < |h| ==> BuiltAt(h, ns, 0, k);
    assert h != [] ==> BuiltAt(h, ns, 0, 0) && entry.prev == null;
    var newHead := new Node(NoValue, null, -1, 0);
    head := InsertBefore(newHead, entry);
    forall k: nat | k < |h| ensures InChain(h, head, ns, k) {
      assert old(BuiltAt(h, ns, 0, k));
    }
    forall k: nat | k < |h| ensures ns[k] != null {
      assert InChain(h, head, ns, k);
    }
    FullLinked(h, head, ns);
  }

  /** Decides whether the history is linearizable. For one that is, and with computePartial set also
      for one that is not, it finds a longest partial linearization through every operation. */
  method CheckSingle<S(==), I(!new), O(!new)>(model: Model<S, I, O>, h: seq<Entry<I, O>>, computePartial: bool)
    returns (ok: bool, longest: seq<Option<seq<nat>>>)
    requires IsHistory(h)
    ensures ok <==> Linearizable(model, OperationsOf(h))
    ensures |longest| == |h| / 2
    ensures ok || computePartial ==> forall i: nat :: i < |h| / 2 ==> IsLongest(model, OperationsOf(h), i, longest[i])
  {
    hide SearchInv, LongestInv, ListRep, CacheRep, Contents, OperationsOf, Nodes, Reachable, Linearizable, IsLongest;
    hide Cursor, Live, Next;
    var search := MakeSearch(model, h);
    LinearizableById(model, OperationsOf(h));
    while search.head.next != null
      invariant search.Valid() && search.model == model && search.h == h
      invariant computePartial ==> search.ValidLongest()
      invariant fresh(search) && fresh(search.linearized) && forall k: nat :: k < |search.full| ==> fresh(search.full[k])
      decreases |Reachable(model, OperationsOf(h), |h| / 2) - search.visited|, |search.path|, |h| + 1 - search.at
    {
      search.CursorInList();
      if search.entry.matching != null {
        search.TryCall();
      } else {
        if search.calls == [] {
          search.Refuted(computePartial);
          return false, search.longest;
        }
        search.GoBack(computePartial);
      }
    }
    var ids := search.StackIds();
    search.Done();
    longest := seq(|search.longest|, _ => Some(ids));
    return true, longest;
  }
}
