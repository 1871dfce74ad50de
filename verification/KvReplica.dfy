/** One server of the replicated key/value service: how it applies the operations of the shared log,
    and that repeats in the log do no harm. */
module KvReplica {
  import opened Linearizability
  import opened Circular

  datatype OpType = GET | PUT | APPEND

  datatype Err = NoErr | OK | ErrNoKey | ErrWrongLeader | ErrOther | ErrTimeout | ErrFiller

  datatype Op = Op(serverId: int, opIndex: int, opType: OpType, key: string, value: string, clientId: int, requestIndex: int)

  datatype State = State(store: map<string, string>, last: map<int, int>)

  datatype KVReplyMsg = KVReplyMsg(error: Err, value: string)

  function IsDuplicate(st: State, op: Op): bool {
    op.clientId in st.last && op.requestIndex <= st.last[op.clientId]
  }

  function ValueReply(st: State, key: string): KVReplyMsg {
    if key in st.store then KVReplyMsg(OK, st.store[key]) else KVReplyMsg(ErrNoKey, "")
  }

  function Update(store: map<string, string>, op: Op): map<string, string> {
    match op.opType
    case GET => store
    case PUT => store[op.key := op.value]
    case APPEND => store[op.key := (if op.key in store then store[op.key] else "") + op.value]
  }

  /** The state after the operation; one seen before changes nothing. */
  function Apply(st: State, op: Op): State {
    if IsDuplicate(st, op) then st else State(Update(st.store, op), st.last[op.clientId := op.requestIndex])
  }

  /** The answer: a get is told the value in the state after the operation, also when repeated. */
  function Answer(st: State, op: Op): KVReplyMsg {
    if op.opType == GET then ValueReply(Apply(st, op), op.key) else KVReplyMsg(OK, "")
  }

  /** An update is always answered OK; a get is answered OK with its value exactly when the key is there,
      and else that there is no such key. */
  lemma AnswersMean(st: State, op: Op)
    ensures op.opType != GET ==> Answer(st, op) == KVReplyMsg(OK, "")
    ensures op.opType == GET && op.key in st.store ==> Answer(st, op) == KVReplyMsg(OK, st.store[op.key])
    ensures op.opType == GET && op.key !in st.store ==> Answer(st, op) == KVReplyMsg(ErrNoKey, "")
  {
  }

  function Initial(): State {
    State(map[], map[])
  }

  function ApplyAll(st: State, log: seq<Op>): State {
    if log == [] then st else Apply(ApplyAll(st, log[..|log| - 1]), log[|log| - 1])
  }

  function Replay(log: seq<Op>): State {
    ApplyAll(Initial(), log)
  }

  lemma {:induction false} ApplyLast(st: State, log: seq<Op>, op: Op)
    ensures ApplyAll(st, log + [op]) == Apply(ApplyAll(st, log), op)
  {
    assert (log + [op])[..|log|] == log;
  }

  /** Restoring a snapshot taken anywhere in the log and applying the rest gives the same state. */
  lemma SnapshotThenRest(log: seq<Op>, k: nat)
    requires k <= |log|
    ensures ApplyAll(Replay(log[..k]), log[k..]) == Replay(log)
    decreases |log|
  {
    if k == |log| {
      assert log[..k] == log && log[k..] == [];
    } else {
      var front, op := log[..|log| - 1], log[|log| - 1];
      SnapshotThenRest(front, k);
      assert front[..k] == log[..k] && log[k..] == front[k..] + [op] && log == front + [op];
      ApplyLast(Replay(log[..k]), front[k..], op);
    }
  }

  // ----- Exactly once

  predicate SameRequest(a: Op, b: Op) {
    a.clientId == b.clientId && a.requestIndex == b.requestIndex
  }

  /** The request does not occur in the log before position p. */
  predicate IsFirst(log: seq<Op>, p: nat)
    requires p < |log|
  {
    forall q :: 0 <= q < p ==> !SameRequest(log[q], log[p])
  }

  /** Every client's requests enter the log in the order of their numbers, apart from repeats. */
  ghost predicate FirstsInOrder(log: seq<Op>) {
    forall p: nat, q: nat :: p < q < |log| && IsFirst(log, q) && log[p].clientId == log[q].clientId ==>
      log[p].requestIndex < log[q].requestIndex
  }

  lemma PrefixInOrder(log: seq<Op>, k: nat)
    requires FirstsInOrder(log) && k <= |log|
    ensures FirstsInOrder(log[..k])
  {
    forall p: nat, q: nat | p < q < k && IsFirst(log[..k], q) && log[p].clientId == log[q].clientId
      ensures log[p].requestIndex < log[q].requestIndex
    {
      assert forall r :: 0 <= r < q ==> log[..k][r] == log[r];
      assert IsFirst(log, q);
    }
  }

  /** The recorded number of a client is the number of one of its requests, and none is larger. */
  lemma LastIsLargest(log: seq<Op>, c: int)
    ensures c in Replay(log).last <==> exists p :: 0 <= p < |log| && log[p].clientId == c
    ensures c in Replay(log).last ==>
              && (exists p :: 0 <= p < |log| && log[p].clientId == c && log[p].requestIndex == Replay(log).last[c])
              && (forall p :: 0 <= p < |log| && log[p].clientId == c ==> log[p].requestIndex <= Replay(log).last[c])
  {
    if log != [] {
      var front, op := log[..|log| - 1], log[|log| - 1];
      LastIsLargest(front, c);
      assert log == front + [op];
      if op.clientId == c {
        assert log[|log| - 1].clientId == c;
      }
    }
  }

  /** An operation is suppressed exactly when its request occurs earlier in the log. */
  lemma SuppressedIsRepeat(log: seq<Op>, p: nat)
    requires FirstsInOrder(log) && p < |log|
    ensures IsDuplicate(Replay(log[..p]), log[p]) <==> !IsFirst(log, p)
  {
    var c, before := log[p].clientId, log[..p];
    LastIsLargest(before, c);
    if IsDuplicate(Replay(before), log[p]) {
      var q :| 0 <= q < p && before[q].clientId == c && before[q].requestIndex == Replay(before).last[c];
      assert log[q].requestIndex >= log[p].requestIndex;
    }
    if !IsFirst(log, p) {
      var q :| 0 <= q < p && SameRequest(log[q], log[p]);
      assert before[q].clientId == c;
    }
  }

  function Firsts(log: seq<Op>): seq<Op> {
    if log == [] then [] else
      var p := |log| - 1;
      if IsFirst(log, p) then Firsts(log[..p]) + [log[p]] else Firsts(log[..p])
  }

  /** The store after the operations, every one of them carried out. */
  function StoreAfter(ops: seq<Op>): map<string, string> {
    if ops == [] then map[] else Update(StoreAfter(ops[..|ops| - 1]), ops[|ops| - 1])
  }

  /** A log with repeats leaves the store that its first occurrences leave. */
  lemma {:induction false} ExactlyOnce(log: seq<Op>)
    requires FirstsInOrder(log)
    ensures Replay(log).store == StoreAfter(Firsts(log))
  {
    if log != [] {
      var p := |log| - 1;
      PrefixInOrder(log, p);
      ExactlyOnce(log[..p]);
      SuppressedIsRepeat(log, p);
      if IsFirst(log, p) {
        assert Firsts(log)[..|Firsts(log)| - 1] == Firsts(log[..p]);
      }
    }
  }

  // ----- The server

  datatype RequestArgs = RequestArgs(opType: OpType, key: string, value: string, clientId: int, requestIndex: int)

  datatype Snapshot = Snapshot(state: State, opIndex: int, totalLogCount: int)

  /** What Raft delivers. */
  datatype Delivery = SnapshotDelivery(data: Option<Snapshot>) | CommandDelivery(op: Op) | FillerDelivery

  type Channels = map<int, map<int, Op>>

  /** The operation that waits on the channel of the request, if there is one. */
  function Waiting(channels: Channels, client: int, request: int): Option<Op> {
    if client in channels && request in channels[client] then Some(channels[client][request]) else None
  }

  /** The request that an operation stands for. */
  function RequestOf(op: Op): RequestArgs {
    RequestArgs(op.opType, op.key, op.value, op.clientId, op.requestIndex)
  }

  /** Server me made the operation, and a call to it waits for the request the operation stands for. */
  predicate Awaits(me: int, channels: Channels, op: Op) {
    var startCh := Waiting(channels, op.clientId, op.requestIndex);
    op.serverId == me && startCh.Some? && RequestOf(startCh.value) == RequestOf(op)
  }

  /** Among operations of server me, and only of it, just those with the content of the one waiting under
      their client and number are awaited. */
  lemma AwaitsMeans(me: int, channels: Channels, op: Op)
    ensures Awaits(me, channels, op) <==>
              && op.serverId == me && op.clientId in channels && op.requestIndex in channels[op.clientId]
              && var waiting := channels[op.clientId][op.requestIndex];
                 && waiting.opType == op.opType && waiting.key == op.key && waiting.value == op.value
                 && waiting.clientId == op.clientId && waiting.requestIndex == op.requestIndex
  {
  }

  /** Whoever waits for another request still does. */
  ghost predicate OthersStay(before: Channels, after: Channels, client: int, request: int) {
    forall c, r :: c != client || r != request ==> Waiting(after, c, r) == Waiting(before, c, r)
  }

  class KVServer {
    const me: int
    const maxraftstate: int
    var store: map<string, string>
    var last: map<int, int>
    var startChannels: Channels
    var opIndex: int
    var totalLogCount: int
    var instoreLogCount: int

    constructor (me: int, maxraftstate: int, snapshot: Option<Snapshot>)
      ensures this.me == me && this.maxraftstate == maxraftstate && startChannels == map[] && opIndex == 0
      ensures CurrentState() == if snapshot.Some? then snapshot.value.state else Initial()
      ensures totalLogCount == (if snapshot.Some? then snapshot.value.totalLogCount else 0) && instoreLogCount == 0
    {
      this.me, this.maxraftstate := me, maxraftstate;
      store, last := map[], map[];
      startChannels, opIndex, totalLogCount, instoreLogCount := map[], 0, 0, 0;
      new;
      InstallSnapshot(snapshot);
    }

    function CurrentState(): State
      reads this
    {
      State(store, last)
    }

    method IsDuplicateOp(op: Op) returns (r: bool)
      ensures r == IsDuplicate(CurrentState(), op)
    {
      if op.clientId in last {
        var lastRequestIndex := last[op.clientId];
        if op.requestIndex <= lastRequestIndex {
          return true;
        } else {
          return false;
        }
      } else {
        return false;
      }
    }

    method GetValue(op: Op) returns (reply: KVReplyMsg)
      ensures reply == ValueReply(CurrentState(), op.key)
    {
      if op.key in store {
        reply := KVReplyMsg(OK, store[op.key]);
      } else {
        reply := KVReplyMsg(ErrNoKey, "");
      }
    }

    method CreateStartCh(op: Op)
      modifies this`startChannels
      ensures Waiting(startChannels, op.clientId, op.requestIndex) == Some(op)
      ensures OthersStay(old(startChannels), startChannels, op.clientId, op.requestIndex)
    {
      if op.clientId !in startChannels {
        startChannels := startChannels[op.clientId := map[]];
      }
      startChannels := startChannels[op.clientId := startChannels[op.clientId][op.requestIndex := op]];
    }

    method DeleteStartCh(op: Op)
      modifies this`startChannels
      ensures Waiting(startChannels, op.clientId, op.requestIndex) == None
      ensures OthersStay(old(startChannels), startChannels, op.clientId, op.requestIndex)
    {
      if op.clientId !in startChannels {
        return;
      }
      var clientMap := startChannels[op.clientId];
      if op.requestIndex in clientMap {
        startChannels := startChannels[op.clientId := clientMap - {op.requestIndex}];
      }
    }

    /** Numbers the operation that stands for a request and, unless the server was killed, opens its
        channel. */
    method PreStart(args: RequestArgs, killed: bool) returns (op: Op, toStop: bool)
      modifies this`startChannels, this`opIndex
      ensures RequestOf(op) == args && op.serverId == me && op.opIndex == old(opIndex)
      ensures opIndex == old(opIndex) + 1 && toStop == killed
      ensures !killed ==> Awaits(me, startChannels, op) && Waiting(startChannels, args.clientId, args.requestIndex) == Some(op)
      ensures killed ==> startChannels == old(startChannels)
      ensures OthersStay(old(startChannels), startChannels, args.clientId, args.requestIndex)
    {
      op := Op(me, opIndex, args.opType, args.key, args.value, args.clientId, args.requestIndex);
      opIndex := opIndex + 1;
      if killed {
        return op, true;
      }
      CreateStartCh(op);
      toStop := false;
    }

    /** The handler of Get and of PutAppend. started is what went to Raft; accepted is whether Raft still
        led then, and response what came through the channel in time. */
    method Serve(args: RequestArgs, isLeader: bool, killed: bool, accepted: bool, response: Option<KVReplyMsg>)
      returns (reply: KVReplyMsg, started: Option<Op>)
      modifies this`startChannels, this`opIndex
      ensures started.Some? == (isLeader && !killed)
      ensures started.Some? ==> RequestOf(started.value) == args && started.value.serverId == me && started.value.opIndex == old(opIndex)
      ensures opIndex == old(opIndex) + if isLeader then 1 else 0
      ensures reply == if started.None? || !accepted then KVReplyMsg(ErrWrongLeader, "")
                       else if response.Some? then response.value
                       else KVReplyMsg(ErrTimeout, "")
      ensures if started.Some? then Waiting(startChannels, args.clientId, args.requestIndex) == None
              else startChannels == old(startChannels)
      ensures OthersStay(old(startChannels), startChannels, args.clientId, args.requestIndex)
    {
      reply, started := KVReplyMsg(NoErr, ""), None;
      if !isLeader {
        reply := reply.(error := ErrWrongLeader);
        return;
      }
      var op, toStop := PreStart(args, killed);
      if toStop {
        reply := reply.(error := ErrWrongLeader);
        return;
      }
      reply := reply.(error := ErrOther);
      started := Some(op);
      if !accepted {
        reply := reply.(error := ErrWrongLeader);
        DeleteStartCh(op);
        return;
      }
      match response
      case Some(responseMsg) =>
        DeleteStartCh(op);
        reply := responseMsg;
      case None =>
        DeleteStartCh(op);
        reply := reply.(error := ErrTimeout);
    }

    method OpChannelMatch(op: Op) returns (r: bool)
      ensures r == Awaits(me, startChannels, op)
    {
      if op.serverId != me {
        return false;
      }
      var startCh := Waiting(startChannels, op.clientId, op.requestIndex);
      if startCh.None? {
        return false;
      }
      var originalOp := startCh.value;
      if originalOp.key != op.key || originalOp.value != op.value || originalOp.opType != op.opType
         || originalOp.clientId != op.clientId || originalOp.requestIndex != op.requestIndex {
        return false;
      }
      return true;
    }

    /** Applies one operation of the log, takes a snapshot if Raft's state has grown too large, and
        answers whoever waits here for its request. */
    method HandleCommandApply(op: Op, raftStateSize: int, isLeader: bool) returns (sent: Option<KVReplyMsg>, snapshot: Option<Snapshot>)
      modifies this`store, this`last, this`startChannels
      ensures CurrentState() == Apply(old(CurrentState()), op)
      ensures snapshot.Some? == (maxraftstate != -1 && raftStateSize >= maxraftstate)
      ensures snapshot.Some? ==> snapshot.value.state == Apply(old(CurrentState()), op)
      ensures sent.Some? == Awaits(me, old(startChannels), op)
      ensures sent.Some? && isLeader ==> sent.value == Answer(old(CurrentState()), op)
      ensures sent.Some? && !isLeader ==> sent.value.error == ErrWrongLeader
      ensures Waiting(startChannels, op.clientId, op.requestIndex)
           == if sent.Some? then None else Waiting(old(startChannels), op.clientId, op.requestIndex)
      ensures OthersStay(old(startChannels), startChannels, op.clientId, op.requestIndex)
    {
      var replyMsg := KVReplyMsg(ErrFiller, "");
      var duplicate := IsDuplicateOp(op);
      if duplicate {
        replyMsg := KVReplyMsg(OK, "");
        if op.opType == GET {
          replyMsg := GetValue(op);
        }
      } else {
        last := last[op.clientId := op.requestIndex];
        if op.opType == GET {
          replyMsg := GetValue(op);
        } else if op.opType == PUT {
          store := store[op.key := op.value];
          replyMsg := KVReplyMsg(OK, "");
        } else {
          if op.key in store {
            store := store[op.key := store[op.key] + op.value];
          } else {
            assert "" + op.value == op.value;
            store := store[op.key := op.value];
          }
          replyMsg := KVReplyMsg(OK, "");
        }
      }
      snapshot := None;
      if maxraftstate != -1 && raftStateSize >= maxraftstate {
        var data := MakeSnapshot();
        snapshot := Some(data);
      }
      if !isLeader {
        replyMsg := replyMsg.(error := ErrWrongLeader);
      }
      sent := None;
      var matches := OpChannelMatch(op);
      if matches {
        sent := Some(replyMsg);
        DeleteStartCh(op);
      }
    }

    /** A snapshot replaces the state; the filler entry changes nothing. */
    method HandleApplyMessage(m: Delivery, raftStateSize: int, isLeader: bool) returns (sent: Option<KVReplyMsg>, snapshot: Option<Snapshot>)
      modifies this`store, this`last, this`startChannels, this`totalLogCount, this`instoreLogCount
      ensures match m
              case SnapshotDelivery(data) => CurrentState() == if data.Some? then data.value.state else old(CurrentState())
              case CommandDelivery(op) => CurrentState() == Apply(old(CurrentState()), op)
              case FillerDelivery => CurrentState() == old(CurrentState())
      ensures snapshot.Some? == (m.CommandDelivery? && maxraftstate != -1 && raftStateSize >= maxraftstate)
      ensures snapshot.Some? ==> snapshot.value.state == CurrentState()
      ensures sent.Some? == (m.CommandDelivery? && Awaits(me, old(startChannels), m.op))
      ensures !m.CommandDelivery? ==> startChannels == old(startChannels)
      ensures sent.Some? && isLeader ==> sent.value == Answer(old(CurrentState()), m.op)
      ensures sent.Some? && !isLeader ==> sent.value.error == ErrWrongLeader
    {
      sent, snapshot := None, None;
      match m
      case SnapshotDelivery(data) => InstallSnapshot(data);
      case CommandDelivery(op) => sent, snapshot := HandleCommandApply(op, raftStateSize, isLeader);
      case FillerDelivery =>
    }

    method MakeSnapshot() returns (data: Snapshot)
      ensures data == Snapshot(CurrentState(), opIndex, totalLogCount)
    {
      data := Snapshot(State(store, last), opIndex, totalLogCount);
    }

    method InstallSnapshot(data: Option<Snapshot>)
      modifies this`store, this`last, this`totalLogCount, this`instoreLogCount
      ensures CurrentState() == if data.Some? then data.value.state else old(CurrentState())
      ensures totalLogCount == if data.Some? then data.value.totalLogCount else old(totalLogCount)
      ensures instoreLogCount == if data.Some? then 0 else old(instoreLogCount)
    {
      if data.None? {
        return;
      }
      store, last, totalLogCount := data.value.state.store, data.value.state.last, data.value.totalLogCount;
      instoreLogCount := 0;
    }
  }

  /** A server that starts from another's snapshot is where the other was. */
  method Recover(kv: KVServer, me: int) returns (recovered: KVServer)
    ensures fresh(recovered) && recovered.CurrentState() == kv.CurrentState() && recovered.totalLogCount == kv.totalLogCount
  {
    var data := kv.MakeSnapshot();
    recovered := new KVServer(me, kv.maxraftstate, Some(data));
  }

  // ----- The clerk

  /** What becomes of one remote call: no connection, or a reply. */
  type Outcome = Option<KVReplyMsg>

  class Clerk {
    const servers: nat
    const clerkRandomId: int
    var requestIndex: int
    var lastLeaderServer: nat

    constructor (servers: nat, id: int)
      ensures this.servers == servers && clerkRandomId == id && requestIndex == 0 && lastLeaderServer == 0
    {
      this.servers, clerkRandomId, requestIndex, lastLeaderServer := servers, id, 0, 0;
    }

    /** The retry loop of Get and of PutAppend, run against the outcomes of its calls in turn. Every
        call carries the same request, under a number not used before; the first outcome that settles
        it ends the loop, and until then each call goes to the next server. */
    method Request(opType: OpType, key: string, value: string, outcomes: seq<Outcome>)
      returns (result: Option<string>, sent: seq<(nat, RequestArgs)>)
      requires servers > 0 && lastLeaderServer < servers
      modifies this`requestIndex, this`lastLeaderServer
      ensures requestIndex == old(requestIndex) + 1
      ensures |sent| <= |outcomes| && (result.None? ==> |sent| == |outcomes|)
      ensures result.Some? ==>
                && |sent| > 0 && outcomes[|sent| - 1].Some?
                && var reply := outcomes[|sent| - 1].value;
                   || (reply.error == OK && result.value == reply.value)
                   || (opType == GET && reply.error == ErrNoKey && result.value == "")
      ensures var failures := if result.Some? then |sent| - 1 else |sent|;
              && lastLeaderServer == (old(lastLeaderServer) + failures) % servers
              && forall i :: 0 <= i < failures && outcomes[i].Some? ==>
                   outcomes[i].value.error != OK && (opType == GET ==> outcomes[i].value.error != ErrNoKey)
      ensures forall i :: 0 <= i < |sent| ==>
                sent[i] == ((old(lastLeaderServer) + i) % servers,
                            RequestArgs(opType, key, value, clerkRandomId, requestIndex))
    {
      requestIndex := requestIndex + 1;
      sent := [];
      var i := 0;
      while i < |outcomes|
        invariant 0 <= i <= |outcomes| && |sent| == i && requestIndex == old(requestIndex) + 1
        invariant forall j :: 0 <= j < i && outcomes[j].Some? ==>
                    outcomes[j].value.error != OK && (opType == GET ==> outcomes[j].value.error != ErrNoKey)
        invariant lastLeaderServer == (old(lastLeaderServer) + i) % servers
        invariant forall j :: 0 <= j < i ==>
                    sent[j] == ((old(lastLeaderServer) + j) % servers,
                                RequestArgs(opType, key, value, clerkRandomId, requestIndex))
      {
        var curServer := lastLeaderServer;
        sent := sent + [(curServer, RequestArgs(opType, key, value, clerkRandomId, requestIndex))];
        var outcome := outcomes[i];
        if outcome.Some? && outcome.value.error == OK {
          return Some(outcome.value.value), sent;
        }
        if outcome.Some? && opType == GET && outcome.value.error == ErrNoKey {
          return Some(""), sent;
        }
        NextTurn(old(lastLeaderServer) + i, servers);
        lastLeaderServer := (curServer + 1) % servers;
        i := i + 1;
      }
      result := None;
    }
  }
}
