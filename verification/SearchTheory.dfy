/** The search for a linearization, apart from the data structures that carry it out: which
    configurations there are, what the search knows about them, and how each of its three
    moves (take an operation, pass over one, go back) keeps that knowledge. */
module SearchTheory {
  import opened Linearizability

  /** Which operations have been placed, and the state they led to. */
  datatype Config<S> = Config(done: set<nat>, state: S)

  /** The operation may come next: none that is still to be placed returned before it was called. */
  ghost predicate Enabled<I, O>(ops: seq<Operation<I, O>>, done: set<nat>, x: nat) {
    && x < |ops| && x !in done
    && forall y: nat :: y < |ops| && y !in done ==> !(ops[y].ret < ops[x].call)
  }

  ghost predicate CanStep<S, I, O>(m: Model<S, I, O>, ops: seq<Operation<I, O>>, c: Config<S>, x: nat) {
    Enabled(ops, c.done, x) && m.step(c.state, ops[x].input, ops[x].output).0
  }

  ghost function After<S, I, O>(m: Model<S, I, O>, ops: seq<Operation<I, O>>, c: Config<S>, x: nat): Config<S>
    requires x < |ops|
  {
    Config(c.done + {x}, m.step(c.state, ops[x].input, ops[x].output).1)
  }

  function IdSet(ids: seq<nat>): set<nat> {
    set x | x in ids
  }

  /** Everything that returned before x was called is among those placed. */
  ghost predicate Covers<I, O>(ops: seq<Operation<I, O>>, placed: seq<nat>, x: nat)
    requires x < |ops|
  {
    forall y: nat :: y < |ops| && ops[y].ret < ops[x].call ==> y in placed
  }

  /** Some of the operations in a legal order, each placed after everything that returned before
      it was called. */
  ghost predicate Partial<S, I, O>(m: Model<S, I, O>, ops: seq<Operation<I, O>>, ids: seq<nat>) {
    && ValidIds(ids, |ops|) && Distinct(ids)
    && (forall i: nat :: i < |ids| ==> Covers(ops, ids[..i], ids[i]))
    && Run(m, Pick(ops, ids)).Some?
  }

  lemma EnabledCovers<I, O>(ops: seq<Operation<I, O>>, ids: seq<nat>, x: nat)
    requires x < |ops|
    ensures Enabled(ops, IdSet(ids), x) <==> x !in ids && Covers(ops, ids, x)
  {
    forall y: nat ensures y in IdSet(ids) <==> y in ids {}
  }

  lemma {:induction false} RunExtends<S, I, O>(m: Model<S, I, O>, ops: seq<Operation<I, O>>, ids: seq<nat>, x: nat)
    requires ValidIds(ids, |ops|) && x < |ops|
    ensures Run(m, Pick(ops, ids + [x])) == match Run(m, Pick(ops, ids))
                                            case None => None
                                            case Some(s) => var (ok, s') := m.step(s, ops[x].input, ops[x].output);
                                                            if ok then Some(s') else None
  {
    assert Pick(ops, ids + [x])[..|ids|] == Pick(ops, ids);
  }

  /** Partial linearizations are built by appending operations that can come next, and only so. */
  lemma {:induction false} PartialExtends<S, I, O>(m: Model<S, I, O>, ops: seq<Operation<I, O>>, ids: seq<nat>, x: nat)
    requires ValidIds(ids, |ops|) && x < |ops|
    ensures Partial(m, ops, ids + [x])
       <==> Partial(m, ops, ids) && CanStep(m, ops, Config(IdSet(ids), Run(m, Pick(ops, ids)).value), x)
    ensures Partial(m, ops, ids + [x]) ==>
              Run(m, Pick(ops, ids + [x])) == Some(After(m, ops, Config(IdSet(ids), Run(m, Pick(ops, ids)).value), x).state)
  {
    hide Run, Pick, Enabled, Covers;
    var longer := ids + [x];
    RunExtends(m, ops, ids, x);
    EnabledCovers(ops, ids, x);
    forall i: nat | i < |ids| ensures longer[..i] == ids[..i] && longer[i] == ids[i] {}
    assert longer[..|ids|] == ids && longer[|ids|] == x;
    if Partial(m, ops, longer) {
      assert forall i: nat :: i < |ids| ==> Covers(ops, longer[..i], longer[i]);
    }
  }

  /** A partial linearization of all operations is a linearization, and the other way round. */
  lemma FullPartial<S, I, O>(m: Model<S, I, O>, ops: seq<Operation<I, O>>, ids: seq<nat>)
    requires Timed(ops) && |ids| == |ops|
    ensures Partial(m, ops, ids) <==> LinearizationById(m, ops, ids)
  {
    if Partial(m, ops, ids) {
      forall i, j | 0 <= i < j < |ids| ensures !(Pick(ops, ids)[j].ret < Pick(ops, ids)[i].call) {
        assert Covers(ops, ids[..i], ids[i]);
      }
    }
    if LinearizationById(m, ops, ids) {
      DistinctSize(ids, |ops|);
      forall i: nat | i < |ids| ensures Covers(ops, ids[..i], ids[i]) {
        forall y: nat | y < |ops| && ops[y].ret < ops[ids[i]].call ensures y in ids[..i] {
          assert y in ids;
          var j :| 0 <= j < |ids| && ids[j] == y;
          assert Pick(ops, ids)[j].ret < Pick(ops, ids)[i].call;
          assert j < i && ids[..i][j] == y;
        }
      }
    }
  }

  // ----- There are finitely many configurations

  ghost function Level<S, I, O>(m: Model<S, I, O>, ops: seq<Operation<I, O>>, k: nat): set<Config<S>> {
    if k == 0 then
      {Config({}, m.init)}
    else
      set c, x | c in Level(m, ops, k - 1) && x in Ids(|ops|) && CanStep(m, ops, c, x) :: After(m, ops, c, x)
  }

  ghost function Reachable<S, I, O>(m: Model<S, I, O>, ops: seq<Operation<I, O>>, k: nat): set<Config<S>> {
    if k == 0 then Level(m, ops, 0) else Reachable(m, ops, k - 1) + Level(m, ops, k)
  }

  lemma {:induction false} LevelReachable<S, I, O>(m: Model<S, I, O>, ops: seq<Operation<I, O>>, k: nat, n: nat)
    requires k <= n
    ensures Level(m, ops, k) <= Reachable(m, ops, n)
    decreases n
  {
    hide Level;
    if k < n { LevelReachable(m, ops, k, n - 1); }
  }

  // ----- What the search knows

  /** The states passed through along the stack of placed operations. */
  ghost predicate Track<S, I, O>(m: Model<S, I, O>, ops: seq<Operation<I, O>>, path: seq<nat>, states: seq<S>) {
    && |states| == |path| + 1 && states[0] == m.init
    && ValidIds(path, |ops|)
    && forall i: nat :: i < |path| ==>
         && CanStep(m, ops, ConfigAt(path, states, i), path[i])
         && m.step(states[i], ops[path[i]].input, ops[path[i]].output).1 == states[i + 1]
  }

  ghost function ConfigAt<S>(path: seq<nat>, states: seq<S>, i: nat): Config<S>
    requires i <= |path| && |states| == |path| + 1
  {
    Config(IdSet(path[..i]), states[i])
  }

  ghost function Top<S>(path: seq<nat>, states: seq<S>): Config<S>
    requires |states| == |path| + 1
  {
    Config(IdSet(path), states[|path|])
  }

  ghost predicate OnPath<S>(path: seq<nat>, states: seq<S>, c: Config<S>)
    requires |states| == |path| + 1
  {
    exists i: nat :: i <= |path| && ConfigAt(path, states, i) == c
  }

  /** Every operation called before the given time that can come next has been tried. */
  ghost predicate Tried<S, I, O>(m: Model<S, I, O>, ops: seq<Operation<I, O>>, visited: set<Config<S>>, c: Config<S>, at: int) {
    forall x: nat :: CanStep(m, ops, c, x) && ops[x].call < at ==> After(m, ops, c, x) in visited
  }

  ghost predicate Explored<S, I, O>(m: Model<S, I, O>, ops: seq<Operation<I, O>>, visited: set<Config<S>>, c: Config<S>) {
    forall x: nat :: CanStep(m, ops, c, x) ==> After(m, ops, c, x) in visited
  }

  /** The stacked configurations are cached, and below each everything up to the operation that
      was taken has been tried. */
  ghost predicate StackInv<S, I, O>(m: Model<S, I, O>, ops: seq<Operation<I, O>>, path: seq<nat>, states: seq<S>,
                                    visited: set<Config<S>>)
    requires |states| == |path| + 1 && ValidIds(path, |ops|)
  {
    && (forall i: nat :: 1 <= i <= |path| ==> ConfigAt(path, states, i) in visited)
    && (forall i: nat :: i < |path| ==> Tried(m, ops, visited, ConfigAt(path, states, i), ops[path[i]].call + 1))
  }

  /** A cached configuration that is no longer on the stack has been explored: all it leads to in
      one step is cached too. None of those places every operation. */
  ghost predicate CacheInv<S, I, O>(m: Model<S, I, O>, ops: seq<Operation<I, O>>, path: seq<nat>, states: seq<S>,
                                    visited: set<Config<S>>)
    requires |states| == |path| + 1
  {
    && visited <= Reachable(m, ops, |ops|)
    && (forall c :: c in visited && !OnPath(path, states, c) ==> Explored(m, ops, visited, c))
    && (forall c :: c in visited && c.done == Ids(|ops|) ==> c.done == IdSet(path))
  }

  /** No operation still to be placed returns before the cursor, and those called before it have
      been tried. */
  ghost predicate CursorInv<S, I, O>(m: Model<S, I, O>, ops: seq<Operation<I, O>>, path: seq<nat>, states: seq<S>,
                                     visited: set<Config<S>>, at: int)
    requires |states| == |path| + 1
  {
    && Tried(m, ops, visited, Top(path, states), at)
    && (forall y: nat :: y < |ops| && y !in path ==> at <= ops[y].ret)
  }

  ghost predicate SearchInv<S, I, O>(m: Model<S, I, O>, ops: seq<Operation<I, O>>, path: seq<nat>, states: seq<S>,
                                     visited: set<Config<S>>, at: int)
  {
    && Track(m, ops, path, states)
    && StackInv(m, ops, path, states, visited)
    && CacheInv(m, ops, path, states, visited)
    && CursorInv(m, ops, path, states, visited, at)
  }

  ghost predicate Recorded<S>(longest: seq<Option<seq<nat>>>, c: Config<S>) {
    forall i: nat :: i in c.done ==> i < |longest| && longest[i].Some? && |longest[i].value| >= |c.done|
  }

  /** Every entry is a partial linearization with its own operation in it, at least as long as
      every configuration given up with that operation placed. */
  ghost predicate LongestInv<S, I, O>(m: Model<S, I, O>, ops: seq<Operation<I, O>>, path: seq<nat>, states: seq<S>,
                                      visited: set<Config<S>>, longest: seq<Option<seq<nat>>>)
    requires |states| == |path| + 1
  {
    && |longest| == |ops|
    && (forall i: nat :: i < |ops| && longest[i].Some? ==> Partial(m, ops, longest[i].value) && i in longest[i].value)
    && (forall c :: c in visited && !OnPath(path, states, c) ==> Recorded(longest, c))
  }

  lemma LongerPath(path: seq<nat>, x: nat)
    ensures IdSet(path + [x]) == IdSet(path) + {x}
    ensures forall d: nat :: d <= |path| ==> (path + [x])[..d] == path[..d]
    ensures path[..|path|] == path
  {
  }

  lemma TopIsLast<S>(path: seq<nat>, states: seq<S>)
    requires |states| == |path| + 1
    ensures Top(path, states) == ConfigAt(path, states, |path|)
  {
    assert path[..|path|] == path;
  }

  lemma {:induction false} NothingPlaced<S, I, O>(m: Model<S, I, O>, ops: seq<Operation<I, O>>)
    ensures Partial(m, ops, []) && Run(m, Pick(ops, [])) == Some(m.init) && IdSet([]) == {}
  {
  }

  lemma {:induction false} TrackRuns<S, I, O>(m: Model<S, I, O>, ops: seq<Operation<I, O>>, path: seq<nat>, states: seq<S>, i: nat)
    requires Track(m, ops, path, states) && i <= |path|
    ensures Partial(m, ops, path[..i]) && Run(m, Pick(ops, path[..i])) == Some(states[i])
    decreases i
  {
    hide Enabled, CanStep, Partial, Run, Pick;
    if i == 0 {
      assert path[..0] == [];
      NothingPlaced(m, ops);
    } else {
      TrackRuns(m, ops, path, states, i - 1);
      assert path[..i] == path[..i - 1] + [path[i - 1]];
      PartialExtends(m, ops, path[..i - 1], path[i - 1]);
    }
  }

  lemma {:induction false} TrackInLevel<S, I, O>(m: Model<S, I, O>, ops: seq<Operation<I, O>>, path: seq<nat>, states: seq<S>, i: nat)
    requires Track(m, ops, path, states) && i <= |path|
    ensures ConfigAt(path, states, i) in Level(m, ops, i)
    decreases i
  {
    hide CanStep, Level;
    if i == 0 {
      FirstLevel(m, ops);
      assert ConfigAt(path, states, 0) == Config({}, m.init);
    } else {
      TrackInLevel(m, ops, path, states, i - 1);
      NextLevel(m, ops, ConfigAt(path, states, i - 1), path[i - 1], i);
      assert path[..i] == path[..i - 1] + [path[i - 1]];
      LongerPath(path[..i - 1], path[i - 1]);
    }
  }

  lemma {:induction false} FirstLevel<S, I, O>(m: Model<S, I, O>, ops: seq<Operation<I, O>>)
    ensures Config({}, m.init) in Level(m, ops, 0)
  {
  }

  lemma NextLevel<S, I, O>(m: Model<S, I, O>, ops: seq<Operation<I, O>>, c: Config<S>, x: nat, k: nat)
    requires 0 < k && c in Level(m, ops, k - 1) && CanStep(m, ops, c, x)
    ensures After(m, ops, c, x) in Level(m, ops, k)
  {
    assert x in Ids(|ops|);
  }

  lemma {:induction false} PathIsPartial<S, I, O>(m: Model<S, I, O>, ops: seq<Operation<I, O>>, path: seq<nat>, states: seq<S>)
    requires Track(m, ops, path, states)
    ensures Partial(m, ops, path) && Run(m, Pick(ops, path)) == Some(states[|path|])
    ensures |path| <= |ops| && |IdSet(path)| == |path|
    ensures Top(path, states) in Level(m, ops, |path|)
  {
    TrackRuns(m, ops, path, states, |path|);
    TrackInLevel(m, ops, path, states, |path|);
    TopIsLast(path, states);
    assert path[..|path|] == path;
    DistinctSize(path, |ops|);
    DistinctAsSet(path);
  }

  // ----- The moves of the search

  /** Call and return times are all different. */
  ghost predicate DistinctTimes<I, O>(ops: seq<Operation<I, O>>) {
    forall x: nat, y: nat :: x < |ops| && y < |ops| ==>
      && ops[x].call != ops[y].ret
      && (x != y ==> ops[x].call != ops[y].call && ops[x].ret != ops[y].ret)
  }

  /** Nothing still to be placed is called or returns strictly between the two times. */
  ghost predicate Quiet<I, O>(ops: seq<Operation<I, O>>, path: seq<nat>, from: int, to: int) {
    forall y: nat :: y < |ops| && y !in path ==>
      && !(from < ops[y].call < to)
      && !(from < ops[y].ret < to)
  }

  lemma Start<S, I, O>(m: Model<S, I, O>, ops: seq<Operation<I, O>>, at: int)
    requires Timed(ops) && Quiet(ops, [], -1, at) && forall y: nat :: y < |ops| ==> ops[y].call >= 0
    ensures SearchInv(m, ops, [], [m.init], {}, at)
    ensures LongestInv(m, ops, [], [m.init], {}, seq(|ops|, _ => None))
  {
  }

  /** Under the cursor, an operation's call; the operation can come next. */
  lemma UnderCursor<S, I, O>(m: Model<S, I, O>, ops: seq<Operation<I, O>>, path: seq<nat>, states: seq<S>,
                             visited: set<Config<S>>, x: nat)
    requires x < |ops| && x !in path && SearchInv(m, ops, path, states, visited, ops[x].call)
    ensures Enabled(ops, IdSet(path), x)
  {
    EnabledCovers(ops, path, x);
  }

  /** Passing over an operation that is refused or whose outcome has been seen. */
  lemma Pass<S, I, O>(m: Model<S, I, O>, ops: seq<Operation<I, O>>, path: seq<nat>, states: seq<S>,
                      visited: set<Config<S>>, x: nat, next: int)
    requires Timed(ops) && DistinctTimes(ops)
    requires x < |ops| && x !in path && SearchInv(m, ops, path, states, visited, ops[x].call)
    requires CanStep(m, ops, Top(path, states), x) ==> After(m, ops, Top(path, states), x) in visited
    requires Quiet(ops, path, ops[x].call, next)
    ensures SearchInv(m, ops, path, states, visited, next)
  {
    var top := Top(path, states);
    forall z: nat | CanStep(m, ops, top, z) && ops[z].call < next
      ensures After(m, ops, top, z) in visited
    {
      assert z != x ==> ops[z].call != ops[x].call;
      assert z !in path;
    }
  }

  lemma PathGrows<S>(path: seq<nat>, states: seq<S>, x: nat, s: S)
    requires |states| == |path| + 1
    ensures forall i: nat :: i <= |path| ==> ConfigAt(path + [x], states + [s], i) == ConfigAt(path, states, i)
    ensures Top(path + [x], states + [s]) == Config(IdSet(path) + {x}, s)
    ensures ConfigAt(path + [x], states + [s], |path| + 1) == Top(path + [x], states + [s])
    ensures ConfigAt(path, states, |path|) == Top(path, states)
    ensures forall c :: OnPath(path + [x], states + [s], c) <==> OnPath(path, states, c) || c == Config(IdSet(path) + {x}, s)
  {
    var path', states' := path + [x], states + [s];
    forall i: nat | i <= |path| ensures ConfigAt(path', states', i) == ConfigAt(path, states, i) {
      assert path'[..i] == path[..i];
    }
    TopIsLast(path, states);
    TopIsLast(path', states');
    forall c | OnPath(path, states, c) ensures OnPath(path', states', c) {
      var i: nat :| i <= |path| && ConfigAt(path, states, i) == c;
      assert ConfigAt(path', states', i) == c;
    }
  }

  /** The configuration an operation leads to, and the finitely many there are. */
  lemma {:induction false} NewIsReachable<S, I, O>(m: Model<S, I, O>, ops: seq<Operation<I, O>>, path: seq<nat>, states: seq<S>, x: nat)
    requires Track(m, ops, path, states) && CanStep(m, ops, Top(path, states), x)
    ensures Track(m, ops, path + [x], states + [After(m, ops, Top(path, states), x).state])
    ensures After(m, ops, Top(path, states), x) in Reachable(m, ops, |ops|)
  {
    var s := After(m, ops, Top(path, states), x).state;
    PathGrows(path, states, x, s);
    var path', states' := path + [x], states + [s];
    forall i: nat | i < |path'|
      ensures CanStep(m, ops, ConfigAt(path', states', i), path'[i])
      ensures m.step(states'[i], ops[path'[i]].input, ops[path'[i]].output).1 == states'[i + 1]
    {
      if i < |path| {
        assert ConfigAt(path', states', i) == ConfigAt(path, states, i);
      }
    }
    PathIsPartial(m, ops, path', states');
    LevelReachable(m, ops, |path'|, |ops|);
  }

  /** Taking an operation whose outcome is new: it goes on the stack and its outcome into the cache. */
  lemma {:induction false} Take<S, I, O>(m: Model<S, I, O>, ops: seq<Operation<I, O>>, path: seq<nat>, states: seq<S>,
                      visited: set<Config<S>>, x: nat, next: int)
    requires Timed(ops) && DistinctTimes(ops)
    requires x < |ops| && x !in path && SearchInv(m, ops, path, states, visited, ops[x].call)
    requires CanStep(m, ops, Top(path, states), x) && After(m, ops, Top(path, states), x) !in visited
    requires forall y: nat :: y < |ops| && y !in path + [x] ==> next <= ops[y].call
    ensures var c := After(m, ops, Top(path, states), x);
            && SearchInv(m, ops, path + [x], states + [c.state], visited + {c}, next)
            && |Reachable(m, ops, |ops|) - (visited + {c})| < |Reachable(m, ops, |ops|) - visited|
  {
    hide ConfigAt, CanStep, Tried, Explored, OnPath, Reachable, StackInv, CacheInv;
    var c := After(m, ops, Top(path, states), x);
    NewIsReachable(m, ops, path, states, x);
    assert (Reachable(m, ops, |ops|) - visited) == (Reachable(m, ops, |ops|) - (visited + {c})) + {c};
    PathGrows(path, states, x, c.state);
    TriedThrough(m, ops, visited, Top(path, states), x);
    StackGrows(m, ops, path, states, visited, path + [x], states + [c.state], visited + {c});
    TakeKeepsCache(m, ops, path, states, visited, x);
    NothingTried(m, ops, path + [x], states + [c.state], visited + {c}, next);
  }

  lemma {:induction false} TakeKeepsCache<S, I, O>(m: Model<S, I, O>, ops: seq<Operation<I, O>>, path: seq<nat>, states: seq<S>,
                                visited: set<Config<S>>, x: nat)
    requires |states| == |path| + 1 && x < |ops| && x !in path && CacheInv(m, ops, path, states, visited)
    requires After(m, ops, Top(path, states), x) in Reachable(m, ops, |ops|)
    ensures var c := After(m, ops, Top(path, states), x);
            CacheInv(m, ops, path + [x], states + [c.state], visited + {c})
  {
    hide ConfigAt, OnPath, CanStep, Reachable;
    PathGrows(path, states, x, After(m, ops, Top(path, states), x).state);
    assert x in Ids(|ops|) && x !in IdSet(path);
  }

  /** Back at the front of the list, nothing has been tried yet. */
  lemma NothingTried<S, I, O>(m: Model<S, I, O>, ops: seq<Operation<I, O>>, path: seq<nat>, states: seq<S>,
                              visited: set<Config<S>>, next: int)
    requires Timed(ops) && |states| == |path| + 1
    requires forall y: nat :: y < |ops| && y !in path ==> next <= ops[y].call
    ensures CursorInv(m, ops, path, states, visited, next)
  {
  }

  /** Trying one more operation moves the bound past its call. */
  lemma TriedThrough<S, I, O>(m: Model<S, I, O>, ops: seq<Operation<I, O>>, visited: set<Config<S>>, c: Config<S>, x: nat)
    requires DistinctTimes(ops) && x < |ops| && Tried(m, ops, visited, c, ops[x].call)
    ensures Tried(m, ops, visited + {After(m, ops, c, x)}, c, ops[x].call + 1)
  {
    forall z: nat | CanStep(m, ops, c, z) && ops[z].call < ops[x].call + 1
      ensures After(m, ops, c, z) in visited + {After(m, ops, c, x)}
    {
      assert z != x ==> ops[z].call != ops[x].call;
    }
  }

  /** A longer stack with a larger cache, given that the new operation has just been tried. */
  lemma StackGrows<S, I, O>(m: Model<S, I, O>, ops: seq<Operation<I, O>>, path: seq<nat>, states: seq<S>,
                            visited: set<Config<S>>, path': seq<nat>, states': seq<S>, visited': set<Config<S>>)
    requires |states| == |path| + 1 && ValidIds(path, |ops|) && |path'| == |path| + 1
    requires |states'| == |path'| + 1 && ValidIds(path', |ops|)
    requires forall i: nat :: i < |path| ==> path'[i] == path[i]
    requires forall i: nat :: i <= |path| ==> ConfigAt(path', states', i) == ConfigAt(path, states, i)
    requires StackInv(m, ops, path, states, visited) && visited <= visited'
    requires ConfigAt(path', states', |path'|) in visited'
    requires Tried(m, ops, visited', ConfigAt(path, states, |path|), ops[path'[|path|]].call + 1)
    ensures StackInv(m, ops, path', states', visited')
  {
    forall i: nat | i < |path'| ensures Tried(m, ops, visited', ConfigAt(path', states', i), ops[path'[i]].call + 1) {
      if i < |path| {
        assert Tried(m, ops, visited, ConfigAt(path, states, i), ops[path[i]].call + 1);
      }
    }
  }

  lemma TakeLongest<S, I, O>(m: Model<S, I, O>, ops: seq<Operation<I, O>>, path: seq<nat>, states: seq<S>,
                             visited: set<Config<S>>, longest: seq<Option<seq<nat>>>, x: nat)
    requires |states| == |path| + 1 && x < |ops| && LongestInv(m, ops, path, states, visited, longest)
    ensures var c := After(m, ops, Top(path, states), x);
            LongestInv(m, ops, path + [x], states + [c.state], visited + {c}, longest)
  {
    hide Recorded, Partial;
    PathGrows(path, states, x, After(m, ops, Top(path, states), x).state);
  }

  /** The stack's top configuration is the only one that leaves the path when an entry is popped. */
  lemma PathShrinks<S>(path: seq<nat>, states: seq<S>)
    requires |states| == |path| + 1 && path != []
    ensures var front, states' := path[..|path| - 1], states[..|path|];
            && (forall i: nat :: i < |path| ==> ConfigAt(front, states', i) == ConfigAt(path, states, i))
            && Top(front, states') == ConfigAt(path, states, |path| - 1)
            && forall c :: OnPath(path, states, c) ==> OnPath(front, states', c) || c == Top(path, states)
  {
    var front, states' := path[..|path| - 1], states[..|path|];
    forall i: nat | i < |path| ensures ConfigAt(front, states', i) == ConfigAt(path, states, i) {
      assert front[..i] == path[..i];
    }
    TopIsLast(front, states');
    TopIsLast(path, states);
    forall c | OnPath(path, states, c) ensures OnPath(front, states', c) || c == Top(path, states) {
      var i: nat :| i <= |path| && ConfigAt(path, states, i) == c;
      if i < |path| {
        assert ConfigAt(front, states', i) == c;
      }
    }
  }

  /** The cursor stands on the return of an operation still to be placed, so everything that can
      come next has been tried. */
  lemma TopIsExplored<S, I, O>(m: Model<S, I, O>, ops: seq<Operation<I, O>>, path: seq<nat>, states: seq<S>,
                               visited: set<Config<S>>, y: nat)
    requires DistinctTimes(ops)
    requires y < |ops| && y !in path && SearchInv(m, ops, path, states, visited, ops[y].ret)
    ensures Explored(m, ops, visited, Top(path, states))
  {
    var top := Top(path, states);
    forall x: nat | CanStep(m, ops, top, x) ensures After(m, ops, top, x) in visited {
      assert y !in top.done;
      assert !(ops[y].ret < ops[x].call) && ops[x].call != ops[y].ret;
    }
  }

  lemma GoBackKeepsStack<S, I, O>(m: Model<S, I, O>, ops: seq<Operation<I, O>>, path: seq<nat>, states: seq<S>,
                                  visited: set<Config<S>>)
    requires Track(m, ops, path, states) && path != [] && StackInv(m, ops, path, states, visited)
    ensures Track(m, ops, path[..|path| - 1], states[..|path|])
    ensures StackInv(m, ops, path[..|path| - 1], states[..|path|], visited)
  {
    hide ConfigAt, Top, CanStep, Tried, OnPath;
    var front, states' := path[..|path| - 1], states[..|path|];
    PathShrinks(path, states);
    forall i: nat | i < |front|
      ensures CanStep(m, ops, ConfigAt(front, states', i), front[i])
      ensures m.step(states'[i], ops[front[i]].input, ops[front[i]].output).1 == states'[i + 1]
      ensures Tried(m, ops, visited, ConfigAt(front, states', i), ops[front[i]].call + 1)
    {
      assert CanStep(m, ops, ConfigAt(path, states, i), path[i]);
      assert Tried(m, ops, visited, ConfigAt(path, states, i), ops[path[i]].call + 1);
    }
  }

  lemma GoBackKeepsCache<S, I, O>(m: Model<S, I, O>, ops: seq<Operation<I, O>>, path: seq<nat>, states: seq<S>,
                                  visited: set<Config<S>>, y: nat)
    requires DistinctTimes(ops) && path != []
    requires y < |ops| && y !in path && SearchInv(m, ops, path, states, visited, ops[y].ret)
    ensures CacheInv(m, ops, path[..|path| - 1], states[..|path|], visited)
  {
    PathShrinks(path, states);
    TopIsExplored(m, ops, path, states, visited, y);
    assert y in Ids(|ops|) && y !in IdSet(path);
  }

  /** Going back: the entry on top of the stack is removed and the cursor moves past its call. */
  lemma GoBack<S, I, O>(m: Model<S, I, O>, ops: seq<Operation<I, O>>, path: seq<nat>, states: seq<S>,
                        visited: set<Config<S>>, y: nat, next: int)
    requires Timed(ops) && DistinctTimes(ops)
    requires y < |ops| && y !in path && SearchInv(m, ops, path, states, visited, ops[y].ret)
    requires path != [] && Quiet(ops, path[..|path| - 1], ops[path[|path| - 1]].call, next)
    ensures SearchInv(m, ops, path[..|path| - 1], states[..|path|], visited, next)
  {
    var front, x := path[..|path| - 1], path[|path| - 1];
    GoBackKeepsStack(m, ops, path, states, visited);
    GoBackKeepsCache(m, ops, path, states, visited, y);
    PathShrinks(path, states);
    var c := ConfigAt(path, states, |path| - 1);
    assert c == Top(front, states[..|path|]);
    assert CanStep(m, ops, c, path[|path| - 1]);
    assert Tried(m, ops, visited, c, ops[path[|path| - 1]].call + 1);
    forall z: nat | CanStep(m, ops, c, z) && ops[z].call < next ensures After(m, ops, c, z) in visited {
      assert z !in front;
      assert z != x ==> ops[z].call != ops[x].call;
    }
    forall z: nat | z < |ops| && z !in front ensures next <= ops[z].ret {
      assert z !in c.done;
      assert ops[z].ret != ops[x].call;
    }
  }

  lemma GoBackLongest<S, I, O>(m: Model<S, I, O>, ops: seq<Operation<I, O>>, path: seq<nat>, states: seq<S>,
                               visited: set<Config<S>>, longest: seq<Option<seq<nat>>>, longest': seq<Option<seq<nat>>>)
    requires Track(m, ops, path, states) && path != [] && LongestInv(m, ops, path, states, visited, longest)
    requires |longest'| == |ops|
    requires forall i: nat :: i < |ops| ==> longest'[i] == if i in path then Better(longest[i], path) else longest[i]
    ensures LongestInv(m, ops, path[..|path| - 1], states[..|path|], visited, longest')
  {
    hide Partial;
    StackRecorded(m, ops, path, states, longest, longest');
    var front, states' := path[..|path| - 1], states[..|path|];
    forall c | c in visited && !OnPath(front, states', c) ensures Recorded(longest', c) {
      if c == Top(path, states) {
        forall i: nat | i in c.done ensures i in path { InIdSet(path, i); }
      } else {
        PathShrinks(path, states);
        assert Recorded(longest, c);
      }
    }
  }

  lemma StackRecorded<S, I, O>(m: Model<S, I, O>, ops: seq<Operation<I, O>>, path: seq<nat>, states: seq<S>,
                               longest: seq<Option<seq<nat>>>, longest': seq<Option<seq<nat>>>)
    requires Track(m, ops, path, states) && |longest| == |longest'| == |ops|
    requires forall i: nat :: i < |ops| && longest[i].Some? ==> Partial(m, ops, longest[i].value) && i in longest[i].value
    requires forall i: nat :: i < |ops| ==> longest'[i] == if i in path then Better(longest[i], path) else longest[i]
    ensures forall i: nat :: i < |ops| && longest'[i].Some? ==> Partial(m, ops, longest'[i].value) && i in longest'[i].value
    ensures forall i: nat :: i in path ==> i < |ops| && longest'[i].Some? && |longest'[i].value| >= |path|
    ensures |IdSet(path)| == |path|
    ensures forall i: nat :: i < |ops| && longest[i].Some? ==> longest'[i].Some? && |longest'[i].value| >= |longest[i].value|
  {
    PathIsPartial(m, ops, path, states);
  }

  lemma InIdSet(ids: seq<nat>, x: nat)
    ensures x in IdSet(ids) <==> x in ids
  {
  }

  /** The longer of a recorded sequence and the present stack. */
  function Better(known: Option<seq<nat>>, path: seq<nat>): Option<seq<nat>> {
    if known.None? || |path| > |known.value| then Some(path) else known
  }

  // ----- What the search finds

  lemma Found<S, I, O>(m: Model<S, I, O>, ops: seq<Operation<I, O>>, path: seq<nat>, states: seq<S>)
    requires Timed(ops) && Track(m, ops, path, states) && forall y: nat :: y < |ops| ==> y in path
    ensures |path| == |ops| && LinearizationById(m, ops, path) && Partial(m, ops, path)
  {
    PathIsPartial(m, ops, path, states);
    SubsetSize(Ids(|ops|), IdSet(path));
    FullPartial(m, ops, path);
  }

  lemma OffEmptyPath<S>(states: seq<S>, c: Config<S>)
    requires |states| == 1
    ensures OnPath([], states, c) ==> c == Top([], states)
  {
    TopIsLast([], states);
  }

  /** With the stack empty and the first return reached, every cached configuration and the first
      one have been explored. */
  lemma AllExplored<S, I, O>(m: Model<S, I, O>, ops: seq<Operation<I, O>>, states: seq<S>,
                             visited: set<Config<S>>, y: nat, c: Config<S>)
    requires DistinctTimes(ops) && y < |ops| && SearchInv(m, ops, [], states, visited, ops[y].ret)
    requires c in visited || c == Config({}, m.init)
    ensures Explored(m, ops, visited, c)
  {
    TopIsExplored(m, ops, [], states, visited, y);
    assert Top([], states) == Config({}, m.init);
    OffEmptyPath(states, c);
  }

  /** So every configuration that placing operations can lead to has been visited. */
  lemma {:induction false} AllVisited<S, I, O>(m: Model<S, I, O>, ops: seq<Operation<I, O>>, states: seq<S>,
                                               visited: set<Config<S>>, y: nat, ids: seq<nat>)
    requires DistinctTimes(ops) && y < |ops| && SearchInv(m, ops, [], states, visited, ops[y].ret)
    requires Partial(m, ops, ids) && ids != []
    ensures Config(IdSet(ids), Run(m, Pick(ops, ids)).value) in visited
    decreases |ids|
  {
    var front, x := ids[..|ids| - 1], ids[|ids| - 1];
    LastStep(m, ops, ids);
    if front != [] {
      AllVisited(m, ops, states, visited, y, front);
    }
    AllExplored(m, ops, states, visited, y, Config(IdSet(front), Run(m, Pick(ops, front)).value));
  }

  /** The last operation of a partial linearization could come next after the others. */
  lemma {:induction false} LastStep<S, I, O>(m: Model<S, I, O>, ops: seq<Operation<I, O>>, ids: seq<nat>)
    requires Partial(m, ops, ids) && ids != []
    ensures Partial(m, ops, ids[..|ids| - 1])
    ensures var c := Config(IdSet(ids[..|ids| - 1]), Run(m, Pick(ops, ids[..|ids| - 1])).value);
            && CanStep(m, ops, c, ids[|ids| - 1])
            && After(m, ops, c, ids[|ids| - 1]) == Config(IdSet(ids), Run(m, Pick(ops, ids)).value)
  {
    var front, x := ids[..|ids| - 1], ids[|ids| - 1];
    assert ids == front + [x];
    PartialExtends(m, ops, front, x);
    assert IdSet(ids) == IdSet(front) + {x};
  }

  lemma NotFound<S, I, O>(m: Model<S, I, O>, ops: seq<Operation<I, O>>, states: seq<S>, visited: set<Config<S>>, y: nat,
                          ids: seq<nat>)
    requires Timed(ops) && DistinctTimes(ops)
    requires y < |ops| && SearchInv(m, ops, [], states, visited, ops[y].ret)
    ensures !LinearizationById(m, ops, ids)
  {
    if LinearizationById(m, ops, ids) {
      FullPartial(m, ops, ids);
      DistinctSize(ids, |ops|);
      var c := Config(IdSet(ids), Run(m, Pick(ops, ids)).value);
      assert c.done == Ids(|ops|);
      AllVisited(m, ops, states, visited, y, ids);
      assert false;
    }
  }

  /** The recorded sequence for an operation is a longest partial linearization that contains it. */
  ghost predicate IsLongest<S, I, O>(m: Model<S, I, O>, ops: seq<Operation<I, O>>, i: nat, best: Option<seq<nat>>) {
    match best
    case None => forall ids :: Partial(m, ops, ids) ==> i !in ids
    case Some(b) => Partial(m, ops, b) && i in b && forall ids :: Partial(m, ops, ids) && i in ids ==> |ids| <= |b|
  }

  lemma NotFoundLongest<S, I, O>(m: Model<S, I, O>, ops: seq<Operation<I, O>>, states: seq<S>, visited: set<Config<S>>,
                                 longest: seq<Option<seq<nat>>>, y: nat)
    requires DistinctTimes(ops)
    requires y < |ops| && SearchInv(m, ops, [], states, visited, ops[y].ret)
    requires LongestInv(m, ops, [], states, visited, longest)
    ensures forall i: nat :: i < |ops| ==> IsLongest(m, ops, i, longest[i])
  {
    forall i: nat, ids: seq<nat> | i < |ops| && Partial(m, ops, ids) && i in ids
      ensures longest[i].Some? && |ids| <= |longest[i].value|
    {
      AllVisited(m, ops, states, visited, y, ids);
      var c := Config(IdSet(ids), Run(m, Pick(ops, ids)).value);
      OffEmptyPath(states, c);
      DistinctAsSet(ids);
      assert Recorded(longest, c) && i in c.done;
    }
  }

  lemma FoundLongest<S, I, O>(m: Model<S, I, O>, ops: seq<Operation<I, O>>, path: seq<nat>, i: nat)
    requires Partial(m, ops, path) && |path| == |ops| && i < |ops|
    ensures IsLongest(m, ops, i, Some(path))
  {
    DistinctSize(path, |ops|);
    forall ids | Partial(m, ops, ids) ensures |ids| <= |path| {
      DistinctSize(ids, |ops|);
    }
  }
}
