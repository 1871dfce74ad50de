/** The whole replicated key/value service: clerks that retry, one shared log that may hold an
    operation many times, replicas that apply prefixes of it, and what the clients see of it. */
module KvHistory {
  import opened Linearizability
  import opened KvModel
  import opened KvReplica
  import opened Locality
  import opened Histories

  /** How a request ended: the place in the log that answered it, if one did, the answer, and when it came. */
  datatype Completion = Completion(at: Option<nat>, value: string, ret: nat)

  datatype Record = Record(args: RequestArgs, call: nat, done: Option<Completion>)

  /** An answer on its way to a client, and the place in the log it was made at; a server that does not
      lead, has waited too long or finds its channel closed answers from no place at all. */
  datatype Reply = Reply(clientId: int, requestIndex: int, msg: KVReplyMsg, at: Option<nat>)

  /** A replica, or a snapshot of one: the state after the first operations of the log. */
  datatype Replica = Replica(state: State, applied: nat)

  datatype ClerkState = ClerkState(requestIndex: int, busy: bool)

  /** origin and logTime tell for each place in the log which request it holds and since when. */
  datatype System = System(
    clock: nat,
    clerks: map<int, ClerkState>,
    history: seq<Record>,
    log: seq<Op>,
    origin: seq<nat>,
    logTime: seq<nat>,
    replicas: seq<Replica>,
    snapshots: set<Replica>,
    replies: set<Reply>)

  datatype Action =
    | Invoke(client: int, opType: OpType, key: string, value: string)
    | Order(r: nat, serverId: int, opIndex: int)
    | ApplyNext(i: nat, isLeader: bool, awaited: bool)
    | Refuse(client: int, requestIndex: int, error: Err)
    | Receive(r: nat, reply: Reply)
    | TakeSnapshot(i: nat)
    | Install(i: nat, snapshot: Replica)
    | RestartEmpty(i: nat)

  function Start(clients: set<int>, servers: nat): System {
    System(0, map c | c in clients :: ClerkState(0, false), [], [], [], [],
           seq(servers, _ => Replica(Initial(), 0)), {}, {})
  }

  function OpFor(args: RequestArgs, serverId: int, opIndex: int): Op {
    Op(serverId, opIndex, args.opType, args.key, args.value, args.clientId, args.requestIndex)
  }

  /** What a client is told: a get that finds no key gives the empty string. */
  function Told(msg: KVReplyMsg): string {
    if msg.error == OK then msg.value else ""
  }

  /** One step; nothing when it cannot be taken. A request may enter the log at any time after it
      was made, any number of times, by way of any server; a reply may be lost or come late. */
  function Next(s: System, step: Action): Option<System> {
    match step
    case Invoke(c, opType, key, value) =>
      if c in s.clerks && !s.clerks[c].busy then
        var index := s.clerks[c].requestIndex + 1;
        Some(s.(clock := s.clock + 1, clerks := s.clerks[c := ClerkState(index, true)],
                history := s.history + [Record(RequestArgs(opType, key, value, c, index), s.clock, None)]))
      else None
    case Order(r, serverId, opIndex) =>
      if r < |s.history| then
        Some(s.(clock := s.clock + 1, log := s.log + [OpFor(s.history[r].args, serverId, opIndex)],
                origin := s.origin + [r], logTime := s.logTime + [s.clock]))
      else None
    case ApplyNext(i, isLeader, awaited) =>
      if i < |s.replicas| && s.replicas[i].applied < |s.log| then
        var Replica(state, applied) := s.replicas[i];
        var op := s.log[applied];
        var answer := Answer(state, op);
        var msg := if isLeader then answer else answer.(error := ErrWrongLeader);
        var sent := if awaited && op.serverId == i then {Reply(op.clientId, op.requestIndex, msg, Some(applied))} else {};
        Some(s.(replicas := s.replicas[i := Replica(Apply(state, op), applied + 1)], replies := s.replies + sent))
      else None
    case Refuse(client, requestIndex, error) =>
      if error == ErrWrongLeader || error == ErrTimeout || error == NoErr then
        Some(s.(replies := s.replies + {Reply(client, requestIndex, KVReplyMsg(error, ""), None)}))
      else None
    case Receive(r, reply) =>
      if r < |s.history| && s.history[r].done.None? && reply in s.replies
         && s.history[r].args.clientId == reply.clientId && s.history[r].args.requestIndex == reply.requestIndex
         && s.history[r].args.clientId in s.clerks
         && (reply.msg.error == OK || (s.history[r].args.opType == GET && reply.msg.error == ErrNoKey)) then
        var c := s.history[r].args.clientId;
        Some(s.(clock := s.clock + 1, clerks := s.clerks[c := s.clerks[c].(busy := false)],
                history := s.history[r := s.history[r].(done := Some(Completion(reply.at, Told(reply.msg), s.clock)))]))
      else None
    case TakeSnapshot(i) =>
      if i < |s.replicas| then Some(s.(snapshots := s.snapshots + {s.replicas[i]})) else None
    case Install(i, snapshot) =>
      if i < |s.replicas| && snapshot in s.snapshots then Some(s.(replicas := s.replicas[i := snapshot])) else None
    case RestartEmpty(i) =>
      if i < |s.replicas| then Some(s.(replicas := s.replicas[i := Replica(Initial(), 0)])) else None
  }

  function Execute(s: System, steps: seq<Action>): Option<System> {
    if steps == [] then Some(s) else
      match Execute(s, steps[..|steps| - 1])
      case None => None
      case Some(t) => Next(t, steps[|steps| - 1])
  }

  // ----- What every step keeps

  ghost predicate LogInv(s: System) {
    && |s.origin| == |s.logTime| == |s.log|
    && (forall p :: 0 <= p < |s.log| ==> s.logTime[p] < s.clock)
    && (forall p, q :: 0 <= p < q < |s.log| ==> s.logTime[p] < s.logTime[q])
    && (forall p :: 0 <= p < |s.log| ==> IsOf(s, p))
  }

  /** What stands at place p was asked for before. */
  ghost predicate IsOf(s: System, p: nat)
    requires p < |s.log| && |s.origin| == |s.logTime| == |s.log|
  {
    && s.origin[p] < |s.history|
    && s.history[s.origin[p]].call < s.logTime[p]
    && s.log[p] == OpFor(s.history[s.origin[p]].args, s.log[p].serverId, s.log[p].opIndex)
  }

  /** A clerk makes one request at a time, under growing numbers. */
  ghost predicate ClerkInv(s: System) {
    && (forall r :: 0 <= r < |s.history| ==> s.history[r].call < s.clock && KnownRequest(s, s.history[r]))
    && (forall a, b :: 0 <= a < b < |s.history| && s.history[a].args.clientId == s.history[b].args.clientId ==>
          && s.history[a].args.requestIndex < s.history[b].args.requestIndex
          && s.history[a].done.Some? && s.history[a].done.value.ret < s.history[b].call)
    && (forall a, b :: 0 <= a < |s.history| && 0 <= b < |s.history| && s.history[b].done.Some? ==>
          s.history[a].call != s.history[b].done.value.ret)
  }

  ghost predicate KnownRequest(s: System, record: Record) {
    var c := record.args.clientId;
    && c in s.clerks
    && record.args.requestIndex <= s.clerks[c].requestIndex
    && (!s.clerks[c].busy ==> record.done.Some?)
  }

  ghost predicate ReplicaInv(s: System, replica: Replica) {
    replica.applied <= |s.log| && replica.state == Replay(s.log[..replica.applied])
  }

  /** An answer from the log is right for its place; a refusal is neither OK nor a missing key. */
  ghost predicate ReplyInv(s: System, reply: Reply) {
    match reply.at
    case None => reply.msg.error != OK && reply.msg.error != ErrNoKey
    case Some(at) =>
      && at < |s.log|
      && s.log[at].clientId == reply.clientId && s.log[at].requestIndex == reply.requestIndex
      && (reply.msg.error != ErrWrongLeader ==> reply.msg == Answer(Replay(s.log[..at]), s.log[at]))
  }

  ghost predicate DoneInv(s: System, r: nat)
    requires r < |s.history| && |s.origin| == |s.logTime| == |s.log|
  {
    s.history[r].done.Some? ==>
      var Completion(place, value, ret) := s.history[r].done.value;
      && place.Some?
      && var at := place.value;
         && at < |s.log| && s.origin[at] == r && s.logTime[at] < ret < s.clock
         && value == Told(Answer(Replay(s.log[..at]), s.log[at]))
  }

  ghost predicate Inv(s: System) {
    && LogInv(s)
    && ClerkInv(s)
    && (forall i :: 0 <= i < |s.replicas| ==> ReplicaInv(s, s.replicas[i]))
    && (forall snapshot :: snapshot in s.snapshots ==> ReplicaInv(s, snapshot))
    && (forall reply :: reply in s.replies ==> ReplyInv(s, reply))
    && (forall r :: 0 <= r < |s.history| ==> DoneInv(s, r))
  }

  lemma InvokeKeeps(s: System, step: Action)
    requires Inv(s) && step.Invoke? && Next(s, step).Some?
    ensures Inv(Next(s, step).value)
  {
    var t := Next(s, step).value;
    assert forall r :: 0 <= r < |s.history| ==> t.history[r] == s.history[r];
    forall p | 0 <= p < |t.log| ensures IsOf(t, p) { assert IsOf(s, p); }
    forall r | 0 <= r < |t.history| ensures DoneInv(t, r) {
      if r < |s.history| { assert DoneInv(s, r); }
    }
    forall r | 0 <= r < |s.history| ensures KnownRequest(t, t.history[r]) { assert KnownRequest(s, s.history[r]); }
    forall r | 0 <= r < |s.history| && s.history[r].done.Some? ensures s.history[r].done.value.ret < s.clock {
      assert DoneInv(s, r);
    }
    assert ClerkInv(t);
    KeepsState(s, t);
  }

  /** Replicas, snapshots and replies stay right while the log only grows. */
  lemma KeepsState(s: System, t: System)
    requires Inv(s) && s.log <= t.log && t.replicas == s.replicas && t.snapshots == s.snapshots && t.replies == s.replies
    ensures forall i :: 0 <= i < |t.replicas| ==> ReplicaInv(t, t.replicas[i])
    ensures forall snapshot :: snapshot in t.snapshots ==> ReplicaInv(t, snapshot)
    ensures forall reply :: reply in t.replies ==> ReplyInv(t, reply)
  {
    forall i | 0 <= i < |t.replicas| ensures ReplicaInv(t, t.replicas[i]) {
      assert ReplicaInv(s, s.replicas[i]);
      assert t.log[..t.replicas[i].applied] == s.log[..t.replicas[i].applied];
    }
    forall snapshot | snapshot in t.snapshots ensures ReplicaInv(t, snapshot) {
      assert ReplicaInv(s, snapshot);
      assert t.log[..snapshot.applied] == s.log[..snapshot.applied];
    }
    forall reply | reply in t.replies ensures ReplyInv(t, reply) {
      assert ReplyInv(s, reply);
      if reply.at.Some? { assert t.log[..reply.at.value] == s.log[..reply.at.value]; }
    }
  }

  lemma OrderKeeps(s: System, step: Action)
    requires Inv(s) && step.Order? && Next(s, step).Some?
    ensures Inv(Next(s, step).value)
  {
    hide Answer, Replay;
    var t := Next(s, step).value;
    forall p | 0 <= p < |t.log| ensures IsOf(t, p) {
      if p < |s.log| { assert IsOf(s, p); }
    }
    forall r | 0 <= r < |t.history| ensures DoneInv(t, r) {
      assert DoneInv(s, r);
      if t.history[r].done.Some? {
        var at := t.history[r].done.value.at.value;
        assert t.log[..at] == s.log[..at];
      }
    }
    forall r | 0 <= r < |s.history| ensures KnownRequest(t, t.history[r]) { assert KnownRequest(s, s.history[r]); }
    assert ClerkInv(t);
    KeepsState(s, t);
  }

  lemma ApplyKeeps(s: System, step: Action)
    requires Inv(s) && step.ApplyNext? && Next(s, step).Some?
    ensures Inv(Next(s, step).value)
  {
    var t := Next(s, step).value;
    var Replica(state, applied) := s.replicas[step.i];
    assert ReplicaInv(s, s.replicas[step.i]);
    ApplyLast(Initial(), s.log[..applied], s.log[applied]);
    assert s.log[..applied] + [s.log[applied]] == s.log[..applied + 1];
    SameRecords(s, t);
  }

  /** Nothing but replicas, snapshots and replies has changed. */
  lemma SameRecords(s: System, t: System)
    requires Inv(s)
    requires t.clock == s.clock && t.clerks == s.clerks && t.history == s.history
    requires t.log == s.log && t.origin == s.origin && t.logTime == s.logTime
    requires forall i :: 0 <= i < |t.replicas| ==> ReplicaInv(s, t.replicas[i])
    requires forall snapshot :: snapshot in t.snapshots ==> ReplicaInv(s, snapshot)
    requires forall reply :: reply in t.replies ==> ReplyInv(s, reply)
    ensures Inv(t)
  {
    forall p | 0 <= p < |t.log| ensures IsOf(t, p) { assert IsOf(s, p); }
    forall r | 0 <= r < |t.history| ensures DoneInv(t, r) { assert DoneInv(s, r); }
    forall r | 0 <= r < |t.history| ensures KnownRequest(t, t.history[r]) { assert KnownRequest(s, s.history[r]); }
    forall i | 0 <= i < |t.replicas| ensures ReplicaInv(t, t.replicas[i]) { assert ReplicaInv(s, t.replicas[i]); }
    forall snapshot | snapshot in t.snapshots ensures ReplicaInv(t, snapshot) { assert ReplicaInv(s, snapshot); }
    forall reply | reply in t.replies ensures ReplyInv(t, reply) { assert ReplyInv(s, reply); }
  }

  /** Two records of one clerk under one number are one record. */
  lemma SameNumber(s: System, a: nat, b: nat)
    requires ClerkInv(s) && a < |s.history| && b < |s.history|
    requires s.history[a].args.clientId == s.history[b].args.clientId
    requires s.history[a].args.requestIndex == s.history[b].args.requestIndex
    ensures a == b
  {
  }

  lemma ReceiveKeeps(s: System, step: Action)
    requires Inv(s) && step.Receive? && Next(s, step).Some?
    ensures Inv(Next(s, step).value)
  {
    hide Answer, Replay;
    var t := Next(s, step).value;
    var c := s.history[step.r].args.clientId;
    assert ReplyInv(s, step.reply);
    assert IsOf(s, step.reply.at.value);
    SameNumber(s, s.origin[step.reply.at.value], step.r);
    forall p | 0 <= p < |t.log| ensures IsOf(t, p) { assert IsOf(s, p); }
    forall r | 0 <= r < |t.history| ensures DoneInv(t, r) { assert DoneInv(s, r); }
    forall r | 0 <= r < |t.history| ensures KnownRequest(t, t.history[r]) {
      assert KnownRequest(s, s.history[r]);
      if r != step.r && s.history[r].args.clientId == c {
        assert r < step.r;
      }
    }
    assert ClerkInv(t);
    KeepsState(s, t);
  }

  lemma NextKeeps(s: System, step: Action)
    requires Inv(s) && Next(s, step).Some?
    ensures Inv(Next(s, step).value)
  {
    match step
    case Invoke(_, _, _, _) => InvokeKeeps(s, step);
    case Order(_, _, _) => OrderKeeps(s, step);
    case ApplyNext(_, _, _) => ApplyKeeps(s, step);
    case Receive(_, _) => ReceiveKeeps(s, step);
    case _ => SameRecords(s, Next(s, step).value);
  }

  lemma {:induction false} EveryRunKeeps(clients: set<int>, servers: nat, steps: seq<Action>)
    requires Execute(Start(clients, servers), steps).Some?
    ensures Inv(Execute(Start(clients, servers), steps).value)
  {
    if steps != [] {
      EveryRunKeeps(clients, servers, steps[..|steps| - 1]);
      NextKeeps(Execute(Start(clients, servers), steps[..|steps| - 1]).value, steps[|steps| - 1]);
    }
  }

  // ----- Exactly once

  /** A request that stands after a later one of its client has stood in the log before. */
  lemma OvertakenIsRepeat(s: System, p: nat, q: nat)
    requires Inv(s) && p < q < |s.log| && s.log[p].clientId == s.log[q].clientId && s.origin[q] <= s.origin[p]
    ensures !IsFirst(s.log, q)
  {
    assert IsOf(s, p) && IsOf(s, q);
    if s.origin[p] == s.origin[q] {
      assert SameRequest(s.log[p], s.log[q]);
    } else {
      var b := s.origin[q];
      assert DoneInv(s, b);
      var at := s.history[b].done.value.at.value;
      assert IsOf(s, at);
      assert SameRequest(s.log[at], s.log[q]);
    }
  }

  /** Each client's requests come into the log in the order of their numbers, apart from repeats. */
  lemma LogInOrder(s: System)
    requires Inv(s)
    ensures FirstsInOrder(s.log)
  {
    forall p: nat, q: nat | p < q < |s.log| && IsFirst(s.log, q) && s.log[p].clientId == s.log[q].clientId
      ensures s.log[p].requestIndex < s.log[q].requestIndex
    {
      assert IsOf(s, p) && IsOf(s, q);
      if s.origin[q] <= s.origin[p] {
        OvertakenIsRepeat(s, p, q);
      }
    }
  }

  lemma SameOrigin(s: System, p: nat, q: nat)
    requires LogInv(s) && ClerkInv(s) && p < |s.log| && q < |s.log|
    ensures SameRequest(s.log[p], s.log[q]) <==> s.origin[p] == s.origin[q]
  {
    assert IsOf(s, p) && IsOf(s, q);
    if SameRequest(s.log[p], s.log[q]) {
      SameNumber(s, s.origin[p], s.origin[q]);
    }
  }

  // ----- The history the clients see

  ghost predicate InLog(s: System, r: nat) {
    exists p :: 0 <= p < |s.origin| && s.origin[p] == r
  }

  /** Requests that came back count, and updates that have reached the log. */
  ghost predicate Counted(s: System, r: nat)
    requires r < |s.history|
  {
    s.history[r].done.Some? || (s.history[r].args.opType != GET && InLog(s, r))
  }

  function InputOf(args: RequestArgs): KvInput {
    KvInput(match args.opType case GET => 0 case PUT => 1 case APPEND => 2, args.key, args.value)
  }

  /** A pending update has no answer yet and has not returned by now. */
  function OperationOf(record: Record, now: nat): KvOperation {
    if record.done.Some? then
      Operation(InputOf(record.args), record.call, KvOutput(record.done.value.value), record.done.value.ret)
    else
      Operation(InputOf(record.args), record.call, KvOutput(""), now)
  }

  /** The operations for some of the records. */
  function Seen(s: System, rs: seq<nat>): (ops: seq<KvOperation>)
    requires forall i :: 0 <= i < |rs| ==> rs[i] < |s.history|
    ensures |ops| == |rs| && forall i :: 0 <= i < |rs| ==> ops[i] == OperationOf(s.history[rs[i]], s.clock)
  {
    seq(|rs|, i requires 0 <= i < |rs| => OperationOf(s.history[rs[i]], s.clock))
  }

  /** The counted ones of the first n records. */
  ghost function CountedBelow(s: System, n: nat): (rs: seq<nat>)
    requires n <= |s.history|
    ensures forall i :: 0 <= i < |rs| ==> rs[i] < n
    ensures forall r :: r in rs <==> 0 <= r < n && Counted(s, r)
    ensures Distinct(rs)
  {
    if n == 0 then [] else
      var before := CountedBelow(s, n - 1);
      if Counted(s, n - 1) then before + [n - 1] else before
  }

  ghost function ClientHistory(s: System): seq<KvOperation> {
    Seen(s, CountedBelow(s, |s.history|))
  }

  // ----- Where each operation takes effect

  /** The request at this place takes effect there: an update where it first stands, a get where it
      was answered. */
  predicate IsPoint(s: System, p: nat)
    requires p < |s.log| && |s.origin| == |s.log| && s.origin[p] < |s.history|
  {
    var record := s.history[s.origin[p]];
    if record.args.opType == GET then record.done.Some? && record.done.value.at == Some(p) else IsFirst(s.log, p)
  }

  ghost predicate Sound(s: System) {
    LogInv(s) && ClerkInv(s) && FirstsInOrder(s.log) && forall r :: 0 <= r < |s.history| ==> DoneInv(s, r)
  }

  /** The places before n at which a request takes effect. */
  function PointsBelow(s: System, n: nat): (ps: seq<nat>)
    requires LogInv(s) && n <= |s.log|
    ensures forall i :: 0 <= i < |ps| ==> ps[i] < n && IsOf(s, ps[i]) && IsPoint(s, ps[i])
    ensures forall i, j :: 0 <= i < j < |ps| ==> ps[i] < ps[j]
    ensures forall p :: 0 <= p < n && s.origin[p] < |s.history| && IsPoint(s, p) ==> p in ps
  {
    if n == 0 then [] else
      assert IsOf(s, n - 1);
      if IsPoint(s, n - 1) then PointsBelow(s, n - 1) + [n - 1] else PointsBelow(s, n - 1)
  }

  function RecordsAt(s: System, ps: seq<nat>): (rs: seq<nat>)
    requires |s.origin| == |s.log| && forall i :: 0 <= i < |ps| ==> ps[i] < |s.log|
    ensures |rs| == |ps| && forall i :: 0 <= i < |ps| ==> rs[i] == s.origin[ps[i]]
  {
    seq(|ps|, i requires 0 <= i < |ps| => s.origin[ps[i]])
  }

  /** No request takes effect twice. */
  lemma PointOnce(s: System, p: nat, q: nat)
    requires Sound(s) && p < |s.log| && q < |s.log| && s.origin[p] == s.origin[q]
    requires s.origin[p] < |s.history| && IsPoint(s, p) && IsPoint(s, q)
    ensures p == q
  {
    SameOrigin(s, p, q);
    SameOrigin(s, q, p);
  }

  lemma FirstPlace(s: System, p: nat) returns (q: nat)
    requires LogInv(s) && ClerkInv(s) && p < |s.log|
    ensures q <= p && s.origin[q] == s.origin[p] && IsFirst(s.log, q)
  {
    if IsFirst(s.log, p) {
      q := p;
    } else {
      var o :| 0 <= o < p && SameRequest(s.log[o], s.log[p]);
      SameOrigin(s, o, p);
      q := FirstPlace(s, o);
    }
  }

  /** Exactly the counted requests take effect, after they were made and before they returned. */
  lemma PointOf(s: System, r: nat) returns (p: nat)
    requires Sound(s) && r < |s.history| && Counted(s, r)
    ensures p < |s.log| && s.origin[p] == r && IsPoint(s, p)
  {
    assert DoneInv(s, r);
    var at := if s.history[r].done.Some? then s.history[r].done.value.at.value else
                var q :| 0 <= q < |s.origin| && s.origin[q] == r; q;
    if s.history[r].args.opType == GET {
      p := at;
    } else {
      p := FirstPlace(s, at);
    }
  }

  lemma PointWithin(s: System, p: nat)
    requires Sound(s) && p < |s.log|
    requires s.origin[p] < |s.history| && IsPoint(s, p)
    ensures Counted(s, s.origin[p])
    ensures OperationOf(s.history[s.origin[p]], s.clock).call < s.logTime[p] < OperationOf(s.history[s.origin[p]], s.clock).ret
  {
    var r := s.origin[p];
    assert IsOf(s, p) && DoneInv(s, r);
    if s.history[r].done.Some? {
      var at := s.history[r].done.value.at.value;
      if at < p {
        SameOrigin(s, at, p);
      }
    }
  }

  /** The requests in the order they take effect. */
  ghost function EffectOrder(s: System, n: nat): (rs: seq<nat>)
    requires LogInv(s) && n <= |s.log|
    ensures forall i :: 0 <= i < |rs| ==> rs[i] < |s.history|
  {
    RecordsAt(s, PointsBelow(s, n))
  }

  lemma SameMembersSameBag(a: seq<nat>, b: seq<nat>)
    requires Distinct(a) && Distinct(b) && forall x :: x in a <==> x in b
    ensures multiset(a) == multiset(b)
  {
    forall x ensures multiset(a)[x] == multiset(b)[x] {
      CountDistinct(a, x);
      CountDistinct(b, x);
    }
  }

  lemma CountDistinct(a: seq<nat>, x: nat)
    requires Distinct(a)
    ensures multiset(a)[x] == if x in a then 1 else 0
  {
    if a != [] {
      var front := a[..|a| - 1];
      CountDistinct(front, x);
      assert a == front + [a[|a| - 1]];
      assert a[|a| - 1] !in front;
    }
  }

  lemma EffectOrderMembers(s: System)
    requires Sound(s)
    ensures Distinct(EffectOrder(s, |s.log|))
    ensures forall r: nat :: r in EffectOrder(s, |s.log|) <==> r < |s.history| && Counted(s, r)
  {
    var ps, order := PointsBelow(s, |s.log|), EffectOrder(s, |s.log|);
    hide Sound, LogInv, ClerkInv, PointsBelow, IsPoint, Counted, IsOf, Replay, DoneInv, FirstsInOrder;
    forall i, j | 0 <= i < j < |order| ensures order[i] != order[j] {
      if order[i] == order[j] { PointOnce(s, ps[i], ps[j]); }
    }
    forall r: nat ensures r in order <==> r < |s.history| && Counted(s, r) {
      if r in order {
        var i :| 0 <= i < |order| && order[i] == r;
        PointWithin(s, ps[i]);
      }
      if r < |s.history| && Counted(s, r) {
        var p := PointOf(s, r);
        var i :| 0 <= i < |ps| && ps[i] == p;
        assert order[i] == r;
      }
    }
  }

  /** The order of effects is an order of the client history. */
  lemma EffectOrderIsAll(s: System)
    requires Sound(s)
    ensures multiset(Seen(s, EffectOrder(s, |s.log|))) == multiset(ClientHistory(s))
  {
    var order, counted := EffectOrder(s, |s.log|), CountedBelow(s, |s.history|);
    EffectOrderMembers(s);
    hide Sound, EffectOrder, CountedBelow, Counted;
    SameMembersSameBag(order, counted);
    var ids := RearrangementHasIds(counted, order);
    assert Pick(Seen(s, counted), ids) == Seen(s, order);
    PermutationPicksAll(Seen(s, counted), ids);
  }

  lemma EffectOrderRealTime(s: System)
    requires Sound(s)
    ensures RealTime(Seen(s, EffectOrder(s, |s.log|)))
  {
    var ps, ops := PointsBelow(s, |s.log|), Seen(s, EffectOrder(s, |s.log|));
    forall i, j | 0 <= i < j < |ops| ensures !(ops[j].ret < ops[i].call) {
      PointWithin(s, ps[i]);
      PointWithin(s, ps[j]);
    }
  }

  // ----- The effects are those of the specification

  /** The two stores hold the same values, a missing one being the empty string. */
  ghost predicate SameValues(a: map<string, string>, b: map<string, string>) {
    forall k :: Lookup(a, k, "") == Lookup(b, k, "")
  }

  /** Carrying out an operation on the specification and on a replica's store. */
  lemma SameEffect(values: map<string, string>, store: map<string, string>, op: Op, args: RequestArgs, out: KvOutput)
    requires SameValues(values, store) && op == OpFor(args, op.serverId, op.opIndex)
    requires op.opType == GET ==> out.value == Lookup(store, op.key, "")
    ensures var (ok, values') := Store().step(values, InputOf(args), out);
            ok && SameValues(values', Update(store, op))
  {
    StoreStep(values, InputOf(args), out);
    var (_, values') := Store().step(values, InputOf(args), out);
    forall k ensures Lookup(values', k, "") == Lookup(Update(store, op), k, "") {
      assert Lookup(values, k, "") == Lookup(store, k, "");
    }
  }

  /** What happens at one place of the log, on a replica and on the specification. */
  lemma EffectOf(s: System, p: nat, values: map<string, string>)
    requires Sound(s) && p < |s.log| && SameValues(values, Replay(s.log[..p]).store)
    requires s.origin[p] < |s.history|
    ensures var store := Replay(s.log[..p + 1]).store;
            if IsPoint(s, p) then
              var o := OperationOf(s.history[s.origin[p]], s.clock);
              var (ok, values') := Store().step(values, o.input, o.output);
              ok && SameValues(values', store)
            else SameValues(values, store)
  {
    var before, op := s.log[..p], s.log[p];
    var record := s.history[s.origin[p]];
    ApplyLast(Initial(), before, op);
    assert before + [op] == s.log[..p + 1];
    assert IsOf(s, p);
    assert DoneInv(s, s.origin[p]);
    SuppressedIsRepeat(s.log, p);
    if IsPoint(s, p) {
      SameEffect(values, Replay(before).store, op, record.args, OperationOf(record, s.clock).output);
    }
  }

  lemma EffectOrderGrows(s: System, p: nat)
    requires LogInv(s) && p < |s.log| && s.origin[p] < |s.history|
    ensures Seen(s, EffectOrder(s, p + 1))
         == Seen(s, EffectOrder(s, p)) + if IsPoint(s, p) then [OperationOf(s.history[s.origin[p]], s.clock)] else []
  {
  }

  /** At every place of the log the specification, run on what took effect before, allows the
      answers given and holds the values the replicas hold. */
  lemma EffectOrderRuns(s: System, n: nat)
    requires Sound(s) && n <= |s.log|
    ensures Run(Store(), Seen(s, EffectOrder(s, n))).Some?
    ensures SameValues(Run(Store(), Seen(s, EffectOrder(s, n))).value, Replay(s.log[..n]).store)
  {
    hide EffectOrder, Seen, OperationOf, SameValues, IsPoint, Run, Replay;
    if n == 0 {
      NoEffectsYet(s);
    } else {
      EffectOrderRuns(s, n - 1);
      NextEffect(s, n - 1);
    }
  }

  lemma NoEffectsYet(s: System)
    requires LogInv(s)
    ensures Run(Store(), Seen(s, EffectOrder(s, 0))) == Some(map[])
    ensures SameValues(map[], Replay(s.log[..0]).store)
  {
    assert Seen(s, EffectOrder(s, 0)) == [];
    assert s.log[..0] == [];
  }

  lemma NextEffect(s: System, p: nat)
    requires Sound(s) && p < |s.log| && Run(Store(), Seen(s, EffectOrder(s, p))).Some?
    requires SameValues(Run(Store(), Seen(s, EffectOrder(s, p))).value, Replay(s.log[..p]).store)
    ensures Run(Store(), Seen(s, EffectOrder(s, p + 1))).Some?
    ensures SameValues(Run(Store(), Seen(s, EffectOrder(s, p + 1))).value, Replay(s.log[..p + 1]).store)
  {
    assert IsOf(s, p);
    EffectOf(s, p, Run(Store(), Seen(s, EffectOrder(s, p))).value);
    EffectOrderGrows(s, p);
    hide EffectOrder, Sound, Seen, OperationOf, SameValues, IsPoint, Replay;
    if IsPoint(s, p) {
      RunLast(Store(), Seen(s, EffectOrder(s, p)), OperationOf(s.history[s.origin[p]], s.clock));
    } else {
      assert Seen(s, EffectOrder(s, p + 1)) == Seen(s, EffectOrder(s, p));
    }
  }

  /** In every run, what the clients have seen is linearizable for the key/value store. */
  lemma {:induction false} EveryRunLinearizable(clients: set<int>, servers: nat, steps: seq<Action>)
    requires Execute(Start(clients, servers), steps).Some?
    ensures Linearizable(Store(), ClientHistory(Execute(Start(clients, servers), steps).value))
  {
    EveryRunKeeps(clients, servers, steps);
    var s := Execute(Start(clients, servers), steps).value;
    LogInOrder(s);
    EffectOrderIsAll(s);
    EffectOrderRealTime(s);
    EffectOrderRuns(s, |s.log|);
    assert Linearization(Store(), ClientHistory(s), Seen(s, EffectOrder(s, |s.log|)));
  }

  ghost predicate AllIdle(s: System) {
    forall c :: c in s.clerks ==> !s.clerks[c].busy
  }

  /** The whole history, every request having returned. */
  function Returned(s: System): (ops: seq<KvOperation>) {
    Seen(s, seq(|s.history|, i => i))
  }

  lemma {:induction false} AllCounted(s: System, n: nat)
    requires n <= |s.history| && forall r :: 0 <= r < n ==> s.history[r].done.Some?
    ensures CountedBelow(s, n) == seq(n, i => i)
  {
    if n > 0 {
      AllCounted(s, n - 1);
      assert Counted(s, n - 1);
    }
  }

  /** Once no clerk is waiting, the history is every request with its answer, and linearizable. */
  lemma {:induction false} ReturnedLinearizable(clients: set<int>, servers: nat, steps: seq<Action>)
    requires Execute(Start(clients, servers), steps).Some? && AllIdle(Execute(Start(clients, servers), steps).value)
    ensures var s := Execute(Start(clients, servers), steps).value;
            && (forall r :: 0 <= r < |s.history| ==> s.history[r].done.Some?)
            && Linearizable(Store(), Returned(s)) && Timed(Returned(s)) && NoTies(Returned(s))
  {
    var s := Execute(Start(clients, servers), steps).value;
    EveryRunKeeps(clients, servers, steps);
    EveryRunLinearizable(clients, servers, steps);
    forall r | 0 <= r < |s.history|
      ensures s.history[r].done.Some? && s.history[r].call < s.history[r].done.value.ret
    {
      assert KnownRequest(s, s.history[r]);
      assert DoneInv(s, r);
      assert IsOf(s, s.history[r].done.value.at.value);
    }
    AllCounted(s, |s.history|);
  }

  /** The linearizability checker accepts every history of the service. */
  method CheckService(clients: set<int>, servers: nat, steps: seq<Action>, verbose: bool) returns (result: CheckResult)
    requires Execute(Start(clients, servers), steps).Some? && AllIdle(Execute(Start(clients, servers), steps).value)
    requires Execute(Start(clients, servers), steps).value.history != []
    ensures result == Ok
  {
    ReturnedLinearizable(clients, servers, steps);
    result := CheckOperations(Returned(Execute(Start(clients, servers), steps).value), verbose);
  }
}
