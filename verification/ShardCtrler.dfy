/** The shard controller: a growing list of configurations, each made from the one before it. */
module ShardCtrler {
  import opened Linearizability
  import opened Rebalance

  datatype Config = Config(num: int, shards: seq<int>, groups: Groups)

  datatype Request =
    | Join(servers: Groups)
    | Leave(gids: seq<int>)
    | Move(shard: int, gid: int)
    | Query(num: int)

  datatype Error = OK | ErrWrongLeader

  datatype Op = Op(request: Request, clientId: int, requestIndex: int)

  function FirstConfig(n: nat): Config {
    Config(0, seq(n, _ => 0), map[])
  }

  // ----- What a configuration becomes

  /** Every shard is in some group, or there is none and every shard is unassigned. */
  ghost predicate Sound(c: Config) {
    && (forall g :: g in c.groups ==> g > 0)
    && (forall i :: 0 <= i < |c.shards| ==> if c.groups == map[] then c.shards[i] == 0 else c.shards[i] in c.groups)
  }

  ghost predicate Even(c: Config) {
    Balanced(c.shards, SortedKeys(c.groups.Keys))
  }

  /** Group ids are positive; a move names a shard and a group that exist. */
  ghost predicate Permitted(c: Config, request: Request) {
    match request
    case Join(servers) => forall g :: g in servers ==> g > 0
    case Move(shard, gid) => 0 <= shard < |c.shards| && gid in c.groups
    case _ => true
  }

  /** Nothing but unassigned shards lies outside the groups. */
  predicate AssignedToGroups(shards: seq<int>, groups: Groups) {
    forall i :: 0 <= i < |shards| ==> shards[i] <= 0 || shards[i] in groups
  }

  lemma FilledIsLive(shards: seq<int>, groups: Groups)
    requires AssignedToGroups(shards, groups) && groups != map[]
    ensures Assignable(Filled(shards, SortedKeys(groups.Keys)), SortedKeys(groups.Keys))
  {
    var keys := SortedKeys(groups.Keys);
    assert groups.Keys != {};
    forall i | 0 <= i < |shards| ensures Filled(shards, keys)[i] in keys {
    }
  }

  ghost function Rebalanced(shards: seq<int>, groups: Groups): (r: seq<int>)
    requires AssignedToGroups(shards, groups)
    ensures |r| == |shards|
  {
    var keys := SortedKeys(groups.Keys);
    var filled := Filled(shards, keys);
    if |groups| > 1 then FilledIsLive(shards, groups); Redistributed(filled, keys) else filled
  }

  function Vacated(shards: seq<int>, gids: seq<int>): (r: seq<int>)
    ensures |r| == |shards| && forall i :: 0 <= i < |r| ==> r[i] == if shards[i] in gids then 0 else shards[i]
  {
    seq(|shards|, i requires 0 <= i < |shards| => if shards[i] in gids then 0 else shards[i])
  }

  function Remaining(groups: Groups, gids: seq<int>): (r: Groups)
    ensures forall g :: g in r <==> g in groups && g !in gids
    ensures forall g :: g in r ==> r[g] == groups[g]
  {
    map g | g in groups && g !in gids :: groups[g]
  }

  lemma SoundIsAssigned(c: Config, request: Request)
    requires Sound(c) && Permitted(c, request)
    ensures request.Join? ==> AssignedToGroups(c.shards, c.groups + request.servers)
    ensures request.Leave? ==> AssignedToGroups(Vacated(c.shards, request.gids), Remaining(c.groups, request.gids))
  {
  }

  /** The next configuration, if the request makes one. */
  ghost function NextConfig(c: Config, request: Request): (d: Config)
    requires Sound(c) && Permitted(c, request) && !request.Query?
    ensures d.num == c.num + 1 && |d.shards| == |c.shards|
  {
    SoundIsAssigned(c, request);
    match request
    case Join(servers) => Config(c.num + 1, Rebalanced(c.shards, c.groups + servers), c.groups + servers)
    case Leave(gids) =>
      var groups := Remaining(c.groups, gids);
      Config(c.num + 1, Rebalanced(Vacated(c.shards, gids), groups), groups)
    case Move(shard, gid) => Config(c.num + 1, c.shards[shard := gid], c.groups)
  }

  // ----- What it keeps

  lemma RebalancedIsEven(shards: seq<int>, groups: Groups)
    requires AssignedToGroups(shards, groups)
    ensures groups == map[] ==> Rebalanced(shards, groups) == shards
    ensures groups != map[] ==>
              && Assignable(Rebalanced(shards, groups), SortedKeys(groups.Keys))
              && Balanced(Rebalanced(shards, groups), SortedKeys(groups.Keys))
  {
    var keys := SortedKeys(groups.Keys);
    if groups == map[] {
      assert groups.Keys == {};
      assert |groups| == 0;
    } else {
      FilledIsLive(shards, groups);
      if |groups| > 1 {
        RedistributedIsBalanced(Filled(shards, keys), keys);
      } else {
        OnlyOne(groups.Keys);
      }
    }
  }

  lemma OnlyOne(s: set<int>)
    requires |s| <= 1
    ensures forall x, y :: x in s && y in s ==> x == y
  {
    forall x, y | x in s && y in s ensures x == y {
      assert |s - {x}| == |s| - 1;
      assert s - {x} == {};
    }
  }

  /** A sound configuration is followed by a sound one; a join or a leave evens the shards out. */
  lemma NextIsSound(c: Config, request: Request)
    requires Sound(c) && Permitted(c, request) && !request.Query?
    ensures Sound(NextConfig(c, request))
    ensures request.Join? || request.Leave? ==> Even(NextConfig(c, request))
  {
    SoundIsAssigned(c, request);
    match request
    case Join(servers) =>
      RebalancedIsSound(c.num + 1, c.shards, c.groups + servers);
    case Leave(gids) =>
      RebalancedIsSound(c.num + 1, Vacated(c.shards, gids), Remaining(c.groups, gids));
    case Move(shard, gid) =>
  }

  lemma RebalancedIsSound(num: int, shards: seq<int>, groups: Groups)
    requires AssignedToGroups(shards, groups) && forall g :: g in groups ==> g > 0
    requires groups == map[] ==> forall i :: 0 <= i < |shards| ==> shards[i] == 0
    ensures Sound(Config(num, Rebalanced(shards, groups), groups)) && Even(Config(num, Rebalanced(shards, groups), groups))
  {
    RebalancedIsEven(shards, groups);
    var keys := SortedKeys(groups.Keys);
    var r := Rebalanced(shards, groups);
    hide Rebalanced;
    if groups == map[] {
      NoGroups(r, groups);
    } else {
      forall i | 0 <= i < |r| ensures r[i] in groups { assert r[i] in keys; }
    }
  }

  lemma NoGroups(shards: seq<int>, groups: Groups)
    requires groups == map[]
    ensures Balanced(shards, SortedKeys(groups.Keys))
  {
    assert groups.Keys == {};
  }

  lemma ShardsAfterJoin(c: Config, servers: Groups)
    requires Sound(c) && Permitted(c, Join(servers)) && c.groups != map[]
    ensures var groups := c.groups + servers;
            var keys := SortedKeys(groups.Keys);
            && Assignable(c.shards, keys)
            && NextConfig(c, Join(servers)).shards == if |groups| > 1 then Redistributed(c.shards, keys) else c.shards
  {
    var groups := c.groups + servers;
    SoundIsAssigned(c, Join(servers));
    NothingToFill(c.shards, SortedKeys(groups.Keys));
    FilledIsLive(c.shards, groups);
  }

  /** A join onto an even configuration with groups moves shards to new groups only. */
  lemma JoinMovesToNewGroups(c: Config, servers: Groups, i: nat)
    requires Sound(c) && Permitted(c, Join(servers)) && c.groups != map[] && Even(c) && i < |c.shards|
    ensures NextConfig(c, Join(servers)).shards[i] == c.shards[i] || NextConfig(c, Join(servers)).shards[i] !in c.groups
  {
    var keys := SortedKeys((c.groups + servers).Keys);
    ShardsAfterJoin(c, servers);
    OldGroupsAhead(c, keys);
    hide Even, Assignable, NextConfig;
    MovesGoToNew(c.shards, keys, c.groups.Keys);
  }

  lemma NothingToFill(shards: seq<int>, keys: seq<int>)
    requires forall i :: 0 <= i < |shards| ==> shards[i] > 0
    ensures Filled(shards, keys) == shards
  {
  }

  /** New groups have no shards yet; old ones are even. */
  lemma OldGroupsAhead(c: Config, keys: seq<int>)
    requires Sound(c) && c.groups != map[] && Even(c)
    ensures forall g, h :: g in keys && h in keys && g in c.groups.Keys ==> multiset(c.shards)[h] <= multiset(c.shards)[g] + 1
  {
    var olds := SortedKeys(c.groups.Keys);
    forall g, h | g in c.groups.Keys ensures multiset(c.shards)[h] <= multiset(c.shards)[g] + 1 {
      if h in c.groups {
        assert g in olds && h in olds;
      } else {
        assert h !in multiset(c.shards);
      }
    }
  }

  // ----- What a request does

  /** The shards lie as the base says, unassigned ones given out in turn, but for the fewest changes that
      make them even. */
  ghost predicate EvenedOut(base: seq<int>, d: Config) {
    if d.groups == map[] then d.shards == base
    else
      var keys := SortedKeys(d.groups.Keys);
      var filled := Filled(base, keys);
      && Even(d) && |d.shards| == |filled|
      && forall t :: Assignable(t, keys) && |t| == |filled| && Balanced(t, keys) ==>
           |Changed(filled, d.shards)| <= |Changed(filled, t)|
  }

  ghost predicate Joined(c: Config, servers: Groups, d: Config) {
    && (forall g :: g in d.groups <==> g in c.groups || g in servers)
    && (forall g :: g in d.groups ==> d.groups[g] == if g in servers then servers[g] else c.groups[g])
    && EvenedOut(c.shards, d) && |d.shards| == |c.shards|
    && (c.groups != map[] && Even(c) ==>
          forall i :: 0 <= i < |d.shards| && d.shards[i] != c.shards[i] ==> d.shards[i] in servers && d.shards[i] !in c.groups)
  }

  ghost predicate Left(c: Config, gids: seq<int>, d: Config) {
    && (forall g :: g in d.groups <==> g in c.groups && g !in gids)
    && (forall g :: g in d.groups ==> d.groups[g] == c.groups[g])
    && (forall i :: 0 <= i < |d.shards| && d.shards[i] in gids ==> d.shards[i] == 0)
    && EvenedOut(Vacated(c.shards, gids), d)
  }

  ghost predicate Moved(c: Config, shard: int, gid: int, d: Config) {
    && d.groups == c.groups
    && 0 <= shard < |d.shards| == |c.shards| && d.shards[shard] == gid
    && forall i :: 0 <= i < |d.shards| && i != shard ==> d.shards[i] == c.shards[i]
  }

  /** What a request must make of a configuration, whatever way it is done. */
  ghost predicate Effect(c: Config, request: Request, d: Config) {
    && d.num == c.num + 1 && |d.shards| == |c.shards| && Sound(d)
    && match request
       case Join(servers) => Joined(c, servers, d)
       case Leave(gids) => Left(c, gids, d)
       case Move(shard, gid) => Moved(c, shard, gid, d)
       case Query(_) => false
  }

  lemma RebalancedEvensOut(num: int, shards: seq<int>, groups: Groups)
    requires AssignedToGroups(shards, groups)
    ensures EvenedOut(shards, Config(num, Rebalanced(shards, groups), groups))
  {
    RebalancedIsEven(shards, groups);
    if groups != map[] {
      FilledIsLive(shards, groups);
      hide Assignable, Balanced;
      var keys := SortedKeys(groups.Keys);
      var filled := Filled(shards, keys);
      if |groups| > 1 {
        RedistributionIsBest(filled, keys);
      } else {
        assert Changed(filled, filled) == {};
      }
    }
  }

  /** Every request has its effect. */
  lemma NextHasEffect(c: Config, request: Request)
    requires Sound(c) && Permitted(c, request) && !request.Query?
    ensures Effect(c, request, NextConfig(c, request))
  {
    SoundIsAssigned(c, request);
    NextIsSound(c, request);
    match request
    case Join(servers) => JoinHasEffect(c, servers);
    case Leave(gids) => LeaveHasEffect(c, gids);
    case Move(shard, gid) =>
  }

  lemma JoinHasEffect(c: Config, servers: Groups)
    requires Sound(c) && Permitted(c, Join(servers))
    ensures Joined(c, servers, NextConfig(c, Join(servers)))
  {
    hide EvenedOut, Rebalanced, Even, AssignedToGroups, Sound, Permitted;
    SoundIsAssigned(c, Join(servers));
    RebalancedEvensOut(c.num + 1, c.shards, c.groups + servers);
    JoinMovesToJoined(c, servers);
  }

  lemma JoinMovesToJoined(c: Config, servers: Groups)
    requires Sound(c) && Permitted(c, Join(servers))
    ensures var d := NextConfig(c, Join(servers));
            c.groups != map[] && Even(c) ==>
              forall i :: 0 <= i < |d.shards| && d.shards[i] != c.shards[i] ==> d.shards[i] in servers && d.shards[i] !in c.groups
  {
    hide Even, Rebalanced, AssignedToGroups;
    var d := NextConfig(c, Join(servers));
    NextIsSound(c, Join(servers));
    assert c.groups != map[] ==> forall i :: 0 <= i < |d.shards| ==> d.shards[i] in c.groups + servers;
    hide NextConfig, Sound, Permitted;
    if c.groups != map[] && Even(c) {
      forall i | 0 <= i < |d.shards| && d.shards[i] != c.shards[i] ensures d.shards[i] in servers && d.shards[i] !in c.groups {
        JoinMovesToNewGroups(c, servers, i);
      }
    }
  }

  lemma LeaveHasEffect(c: Config, gids: seq<int>)
    requires Sound(c)
    ensures Left(c, gids, NextConfig(c, Leave(gids)))
  {
    SoundIsAssigned(c, Leave(gids));
    NextIsSound(c, Leave(gids));
    RebalancedEvensOut(c.num + 1, Vacated(c.shards, gids), Remaining(c.groups, gids));
    hide EvenedOut, Rebalanced, Even, AssignedToGroups;
  }

  // ----- The replicated state

  datatype State = State(configs: seq<Config>, last: map<int, int>)

  function FirstState(n: nat): State {
    State([FirstConfig(n)], map[])
  }

  predicate IsDuplicate(last: map<int, int>, op: Op) {
    op.clientId in last && op.requestIndex <= last[op.clientId]
  }

  /** The configuration asked for, or the latest for a number there is none of. */
  function Asked(configs: seq<Config>, num: int): Config
    requires configs != []
  {
    if num < 0 || num >= |configs| then configs[|configs| - 1] else configs[num]
  }

  ghost predicate AllSound(st: State) {
    st.configs != [] && forall i :: 0 <= i < |st.configs| ==> Sound(st.configs[i]) && st.configs[i].num == i
  }

  function Latest(configs: seq<Config>): Config
    requires configs != []
  {
    configs[|configs| - 1]
  }

  ghost function Apply(st: State, op: Op): (r: State)
    requires AllSound(st) && Permitted(Latest(st.configs), op.request)
    ensures AllSound(r) && st.configs <= r.configs && |r.configs| <= |st.configs| + 1
  {
    if IsDuplicate(st.last, op) then st
    else if op.request.Query? then st.(last := st.last[op.clientId := op.requestIndex])
    else
      NextIsSound(Latest(st.configs), op.request);
      State(st.configs + [NextConfig(Latest(st.configs), op.request)], st.last[op.clientId := op.requestIndex])
  }

  /** Some sequence of operations, each permitted when it comes, leads from one state to the other. */
  ghost predicate Leads(st: State, ops: seq<Op>, end: State)
    requires AllSound(st)
    decreases |ops|
  {
    if ops == [] then end == st else
      exists before :: Leads(st, ops[..|ops| - 1], before) && AllSound(before)
                    && Permitted(Latest(before.configs), ops[|ops| - 1].request) && end == Apply(before, ops[|ops| - 1])
  }

  /** The configuration at this place came from the one before by a request that had its effect. */
  ghost predicate FollowsAt(configs: seq<Config>, i: nat)
    requires 0 < i < |configs|
  {
    Follows(configs[i - 1], configs[i])
  }

  ghost predicate Follows(c: Config, d: Config) {
    exists request :: Effect(c, request, d)
  }

  /** A new request for a change has exactly its effect on the latest configuration; anything else leaves
      the configurations alone. */
  lemma ApplyHasEffect(st: State, op: Op)
    requires AllSound(st) && Permitted(Latest(st.configs), op.request)
    ensures var end := Apply(st, op);
            if (op.clientId in st.last && op.requestIndex <= st.last[op.clientId]) || op.request.Query? then
              end.configs == st.configs
            else
              |end.configs| == |st.configs| + 1 && Effect(Latest(st.configs), op.request, Latest(end.configs))
  {
    if !IsDuplicate(st.last, op) && !op.request.Query? {
      NextHasEffect(Latest(st.configs), op.request);
    }
  }

  lemma ApplyFollows(st: State, op: Op)
    requires AllSound(st) && Permitted(Latest(st.configs), op.request)
    ensures var end := Apply(st, op);
            |end.configs| > |st.configs| ==> FollowsAt(end.configs, |st.configs|)
  {
    ApplyHasEffect(st, op);
    hide Effect, Apply;
  }

  /** Through any joins, leaves and moves: configuration i has number i, configurations never change
      once made, each comes from the one before by the effect of one request, and each is sound. */
  lemma {:induction false} EveryRunSound(st: State, ops: seq<Op>, end: State)
    requires AllSound(st) && Leads(st, ops, end)
    ensures AllSound(end) && st.configs <= end.configs
    ensures forall i :: |st.configs| <= i < |end.configs| ==> FollowsAt(end.configs, i)
    decreases |ops|
  {
    if ops != [] {
      var front, op := ops[..|ops| - 1], ops[|ops| - 1];
      var before :| Leads(st, front, before) && AllSound(before)
                    && Permitted(Latest(before.configs), op.request) && end == Apply(before, op);
      EveryRunSound(st, front, before);
      ApplyFollows(before, op);
      hide NextConfig, Apply, Effect, Permitted;
      forall i | |st.configs| <= i < |end.configs| ensures FollowsAt(end.configs, i) {
        if i < |before.configs| { assert FollowsAt(before.configs, i); }
      }
    }
  }

  /** Some operation of the client with at least this number is among those applied. */
  ghost predicate Overtaken(ops: seq<Op>, client: int, requestIndex: int) {
    exists k :: 0 <= k < |ops| && ops[k].clientId == client && ops[k].requestIndex >= requestIndex
  }

  lemma OvertakenLater(ops: seq<Op>, op: Op, client: int, requestIndex: int)
    ensures Overtaken(ops + [op], client, requestIndex)
       <==> Overtaken(ops, client, requestIndex) || (op.clientId == client && op.requestIndex >= requestIndex)
  {
    var more := ops + [op];
    if k :| 0 <= k < |ops| && ops[k].clientId == client && ops[k].requestIndex >= requestIndex {
      assert more[k] == ops[k];
    }
    assert more[|ops|] == op;
  }

  lemma ApplyRecords(st: State, op: Op)
    requires AllSound(st) && Permitted(Latest(st.configs), op.request)
    ensures Apply(st, op).last == if IsDuplicate(st.last, op) then st.last else st.last[op.clientId := op.requestIndex]
  {
    hide AllSound, NextConfig;
  }

  lemma RecordsLargest(st: State, op: Op, ops: seq<Op>, client: int, requestIndex: int)
    requires AllSound(st) && Permitted(Latest(st.configs), op.request)
    requires client in st.last && requestIndex <= st.last[client] <==> Overtaken(ops, client, requestIndex)
    ensures var last := Apply(st, op).last;
            client in last && requestIndex <= last[client] <==> Overtaken(ops + [op], client, requestIndex)
  {
    ApplyRecords(st, op);
    OvertakenLater(ops, op, client, requestIndex);
    hide Apply, AllSound, Permitted, Overtaken;
  }

  lemma {:induction false} LastIsLargest(n: nat, ops: seq<Op>, end: State, client: int, requestIndex: int)
    requires AllSound(FirstState(n)) && Leads(FirstState(n), ops, end)
    ensures client in end.last && requestIndex <= end.last[client] <==> Overtaken(ops, client, requestIndex)
    decreases |ops|
  {
    hide Overtaken, Apply, Permitted;
    if ops == [] {
      NoneOvertaken(client, requestIndex);
    } else {
      var front, op := ops[..|ops| - 1], ops[|ops| - 1];
      assert front + [op] == ops;
      var before :| Leads(FirstState(n), front, before) && AllSound(before)
                    && Permitted(Latest(before.configs), op.request) && end == Apply(before, op);
      hide AllSound;
      LastIsLargest(n, front, before, client, requestIndex);
      RecordsLargest(before, op, front, client, requestIndex);
    }
  }

  lemma NoneOvertaken(client: int, requestIndex: int)
    ensures !Overtaken([], client, requestIndex)
  {
  }

  /** Through a whole run: a request for a change has its effect if it is the first of its client with so
      large a number, and else none. */
  lemma RepeatsHaveNoEffect(n: nat, ops: seq<Op>, end: State, op: Op)
    requires AllSound(FirstState(n)) && Leads(FirstState(n), ops, end)
    requires AllSound(end) && Permitted(Latest(end.configs), op.request)
    ensures if Overtaken(ops, op.clientId, op.requestIndex) then Apply(end, op) == end
            else if op.request.Query? then Apply(end, op).configs == end.configs
            else Effect(Latest(end.configs), op.request, Latest(Apply(end, op).configs))
  {
    LastIsLargest(n, ops, end, op.clientId, op.requestIndex);
    ApplyHasEffect(end, op);
    hide Effect, NextConfig, Overtaken;
  }

  /** From the start: one configuration, number 0, no group, and so no shard assigned; no request seen. */
  lemma FirstIsSound(n: nat)
    ensures AllSound(FirstState(n))
    ensures var st := FirstState(n);
            && |st.configs| == 1 && st.last == map[]
            && st.configs[0].num == 0 && st.configs[0].groups == map[] && |st.configs[0].shards| == n
            && forall i :: 0 <= i < n ==> st.configs[0].shards[i] == 0
  {
  }

  class ShardCtrler {
    var configs: seq<Config>
    var last: map<int, int>

    ghost predicate Valid()
      reads this
    {
      AllSound(View()) && |Latest(configs).shards| <= 256
    }

    ghost function View(): State
      reads this
    {
      State(configs, last)
    }

    constructor (n: nat)
      requires n <= 256
      ensures Valid() && View() == FirstState(n)
    {
      configs, last := [FirstConfig(n)], map[];
      new;
      FirstIsSound(n);
    }

    /** A copy of the latest configuration under the next number. */
    method MakeNextConfig() returns (num: int, shards: array<int>, groups: Groups)
      requires Valid()
      ensures fresh(shards) && shards[..] == Latest(configs).shards
      ensures num == Latest(configs).num + 1 && groups == Latest(configs).groups
    {
      var latest := configs[|configs| - 1];
      num := latest.num + 1;
      shards := new int[|latest.shards|];
      for i := 0 to |latest.shards|
        invariant shards[..i] == latest.shards[..i]
      {
        shards[i] := latest.shards[i];
      }
      groups := map[];
      var rest := latest.groups.Keys;
      while rest != {}
        invariant rest <= latest.groups.Keys && shards[..] == latest.shards
        invariant groups == map g | g in latest.groups && g !in rest :: latest.groups[g]
        decreases rest
      {
        ghost var some := SomeMember(rest);
        var g :| g in rest;
        groups, rest := groups[g := latest.groups[g]], rest - {g};
      }
    }

    method AddConfig(config: Config)
      requires Valid() && Sound(config) && config.num == |configs| && |config.shards| <= 256
      modifies this`configs
      ensures Valid() && configs == old(configs) + [config]
    {
      hide Sound;
      configs := configs + [config];
    }

    method HandleJoin(servers: Groups)
      requires Valid() && Permitted(Latest(configs), Join(servers))
      modifies this`configs
      ensures Valid()
      ensures configs == old(configs) + [NextConfig(Latest(old(configs)), Join(servers))]
      ensures Effect(Latest(old(configs)), Join(servers), Latest(configs))
    {
      NextHasEffect(Latest(configs), Join(servers));
      hide Effect;
      ghost var c := Latest(configs);
      SoundIsAssigned(c, Join(servers));
      NextIsSound(c, Join(servers));
      hide Sound, AssignedToGroups, Rebalanced, Even;
      var num, shards, groups := MakeNextConfig();
      groups := AddGroups(groups, servers);
      FillAndEven(shards, groups);
      AddConfig(Config(num, shards[..], groups));
    }

    method HandleLeave(gids: seq<int>)
      requires Valid()
      modifies this`configs
      ensures Valid()
      ensures configs == old(configs) + [NextConfig(Latest(old(configs)), Leave(gids))]
      ensures Effect(Latest(old(configs)), Leave(gids), Latest(configs))
    {
      NextHasEffect(Latest(configs), Leave(gids));
      hide Effect;
      ghost var c := Latest(configs);
      SoundIsAssigned(c, Leave(gids));
      NextIsSound(c, Leave(gids));
      hide Sound, AssignedToGroups, Rebalanced, Even;
      var num, shards, groups := MakeNextConfig();
      groups := RemoveGroups(groups, gids);
      Vacate(shards, gids);
      FillAndEven(shards, groups);
      AddConfig(Config(num, shards[..], groups));
    }

    method HandleMove(shard: int, gid: int)
      requires Valid() && Permitted(Latest(configs), Move(shard, gid))
      modifies this`configs
      ensures Valid()
      ensures configs == old(configs) + [NextConfig(Latest(old(configs)), Move(shard, gid))]
      ensures Effect(Latest(old(configs)), Move(shard, gid), Latest(configs))
    {
      NextHasEffect(Latest(configs), Move(shard, gid));
      hide Effect;
      ghost var c := Latest(configs);
      NextIsSound(c, Move(shard, gid));
      var num, shards, groups := MakeNextConfig();
      shards[shard] := gid;
      AddConfig(Config(num, shards[..], groups));
    }

    /** The configuration of that number; for any other number the one with the largest. */
    method GetValue(num: int) returns (c: Config)
      requires Valid()
      ensures c in configs && c == Asked(configs, num)
      ensures if 0 <= num < |configs| then c.num == num else forall d :: d in configs ==> d.num <= c.num
    {
      if num < 0 || num >= |configs| {
        return configs[|configs| - 1];
      }
      return configs[num];
    }

    /** Applies one operation of the log and takes a snapshot; a repeated one changes nothing. */
    method HandleCommandApply(op: Op, isLeader: bool) returns (error: Error, reply: Option<Config>, snapshot: State)
      requires Valid() && Permitted(Latest(configs), op.request)
      modifies this
      ensures Valid() && View() == Apply(old(View()), op)
      ensures snapshot == View() && error == if isLeader then OK else ErrWrongLeader
      ensures reply == if op.request.Query? then Some(Asked(configs, op.request.num)) else None
    {
      error, reply := OK, None;
      if IsDuplicate(last, op) {
        if op.request.Query? {
          var c := GetValue(op.request.num);
          reply := Some(c);
        }
      } else {
        last := last[op.clientId := op.requestIndex];
        match op.request {
          case Query(num) =>
            var c := GetValue(num);
            reply := Some(c);
          case Join(servers) => HandleJoin(servers);
          case Leave(gids) => HandleLeave(gids);
          case Move(shard, gid) => HandleMove(shard, gid);
        }
      }
      snapshot := State(configs, last);
      if !isLeader {
        error := ErrWrongLeader;
      }
    }
  }

  method AddGroups(groups: Groups, servers: Groups) returns (r: Groups)
    ensures r == groups + servers
  {
    r := groups;
    var rest := servers.Keys;
    while rest != {}
      invariant rest <= servers.Keys
      invariant r == groups + map g | g in servers && g !in rest :: servers[g]
      decreases rest
    {
      ghost var some := SomeMember(rest);
      var g :| g in rest;
      r, rest := r[g := servers[g]], rest - {g};
    }
    assert r == groups + servers;
  }

  method RemoveGroups(groups: Groups, gids: seq<int>) returns (r: Groups)
    ensures r == Remaining(groups, gids)
  {
    r := groups;
    for i := 0 to |gids|
      invariant r == Remaining(groups, gids[..i])
    {
      r := r - {gids[i]};
    }
    assert gids[..|gids|] == gids;
  }

  method Vacate(shards: array<int>, gids: seq<int>)
    modifies shards
    ensures shards[..] == Vacated(old(shards[..]), gids)
  {
    for i := 0 to shards.Length
      invariant forall k :: 0 <= k < i ==> shards[k] == if old(shards[k]) in gids then 0 else old(shards[k])
      invariant forall k :: i <= k < shards.Length ==> shards[k] == old(shards[k])
    {
      if shards[i] in gids {
        shards[i] := 0;
      }
    }
  }

  /** Fills the void, then evens out if there is more than one group. */
  method FillAndEven(shards: array<int>, groups: Groups)
    requires shards.Length <= 256 && AssignedToGroups(shards[..], groups)
    modifies shards
    ensures AssignedToGroups(old(shards[..]), groups) && shards[..] == Rebalanced(old(shards[..]), groups)
  {
    ghost var before := shards[..];
    AssignVoidShards(shards, groups);
    if |groups| > 1 {
      FilledIsLive(before, groups);
      RedistributeShards(shards, groups);
    }
  }
}
