/** All the servers and the messages between them, which may be lost, delayed, reordered and
    delivered again: a message once sent stays deliverable. */
module RaftCluster {
  import opened Linearizability
  import opened RaftPeer

  /** sent and commit are the whole log and the commit index of the leader when it sent the message. */
  datatype Message =
    | AppendMessage(to: nat, args: AppendArgs, sent: seq<LogEntity>, commit: int)
    | AppendAnswer(to: nat, appendReply: AppendReply)
    | VoteMessage(to: nat, request: VoteArgs)
    | VoteAnswer(from: nat, to: nat, voteReply: VoteReply)

  datatype Grant = Grant(voter: nat, term: int, candidate: int)

  /** A vote given, the request it answered, and the voter's whole log at that moment. */
  datatype Ballot = Ballot(voter: nat, request: VoteArgs, log: seq<LogEntity>)

  datatype Win = Win(term: int, server: nat, quorum: set<nat>)

  /** Besides servers and messages, what has happened so far: the latest log of each leader term,
      the votes granted and the ballots cast, whose votes each candidate has counted, the elections won, whether a
      vote was counted twice, and whether an append of its own term reached a server after it had
      granted a vote in that term. */
  datatype Cluster = Cluster(
    peers: seq<Peer>,
    net: set<Message>,
    leaderLog: map<int, seq<LogEntity>>,
    grants: set<Grant>,
    ballots: set<Ballot>,
    counted: seq<set<nat>>,
    wins: set<Win>,
    recounted: bool,
    disturbed: bool)

  datatype Action =
    | Timeout(i: nat)
    | AskVote(i: nat, to: nat)
    | Vote(m: Message)
    | HearVote(m: Message)
    | ClientCommand(i: nat, command: int)
    | SendAppend(i: nat, to: nat, nextIndex: int)
    | Append(m: Message)
    | HearAppend(m: Message)
    | Commit(i: nat, index: int)
    | TakeSnapshot(i: nat, index: int)
    | Restart(i: nat)

  function Start(n: nat): Cluster {
    Cluster(seq(n, _ => NewPeer()), {}, map[-1 := [Filler()]], {}, {}, seq(n, _ => {}), {}, false, false)
  }

  ghost predicate Shape(c: Cluster) {
    |c.counted| == |c.peers| && forall i :: 0 <= i < |c.peers| ==> WellFormed(c.peers[i])
  }

  function Put(c: Cluster, i: nat, p: Peer): Cluster
    requires i < |c.peers|
  {
    c.(peers := c.peers[i := p])
  }

  function Send(c: Cluster, m: Message): Cluster {
    c.(net := c.net + {m})
  }

  function OnTimeout(c: Cluster, i: nat): Cluster
    requires Shape(c) && i < |c.peers|
  {
    Put(c, i, BecomeCandidate(c.peers[i], i)).(counted := c.counted[i := {}])
  }

  function OnVote(c: Cluster, m: Message): Cluster
    requires Shape(c) && m.VoteMessage? && m.to < |c.peers|
  {
    var (p, reply) := OnVoteRequest(c.peers[m.to], m.to, m.request);
    var granted := if reply.voteGranted then {Grant(m.to, reply.term, m.request.candidateId)} else {};
    var answer := if m.request.candidateId >= 0 then {VoteAnswer(m.to, m.request.candidateId, reply)} else {};
    var cast := if reply.voteGranted then {Ballot(m.to, m.request, c.peers[m.to].log)} else {};
    Put(c, m.to, p).(net := c.net + answer, grants := c.grants + granted, ballots := c.ballots + cast)
  }

  function OnHearVote(c: Cluster, m: Message): Cluster
    requires Shape(c) && m.VoteAnswer? && m.to < |c.peers|
  {
    var p := c.peers[m.to];
    var q := OnVoteReply(p, |c.peers|, m.voteReply);
    var counts := CountsVote(p, m.voteReply);
    var voters := if counts then c.counted[m.to] + {m.from} else c.counted[m.to];
    var won := q.status == Leader && p.status != Leader;
    Put(c, m.to, q).(
      counted := c.counted[m.to := voters],
      recounted := c.recounted || (counts && m.from in c.counted[m.to]),
      leaderLog := if won then c.leaderLog[q.currentTerm := q.log] else c.leaderLog,
      wins := if won then c.wins + {Win(p.currentTerm, m.to, voters + {m.to})} else c.wins)
  }

  function OnCommand(c: Cluster, i: nat, command: int): Cluster
    requires Shape(c) && i < |c.peers|
  {
    var p := Submit(c.peers[i], command);
    Put(c, i, p).(leaderLog := if p.status == Leader then c.leaderLog[p.currentTerm := p.log] else c.leaderLog)
  }

  function OnDeliver(c: Cluster, m: Message): Cluster
    requires Shape(c) && m.AppendMessage? && m.to < |c.peers|
  {
    var before := c.peers[m.to];
    var (p, reply) := OnAppend(before, m.args);
    var again := m.args.term == before.currentTerm && HasGranted(c, m.to, before.currentTerm);
    var answer := if reply.Some? && m.args.leaderId >= 0 then {AppendAnswer(m.args.leaderId, reply.value)} else {};
    Put(c, m.to, if reply.Some? then p else Restarted(p)).(
      net := c.net + answer,
      disturbed := c.disturbed || again)
  }

  predicate HasGranted(c: Cluster, i: nat, term: int) {
    exists g :: g in c.grants && g.voter == i && g.term == term
  }

  /** One step; nothing when it cannot be taken. Votes are asked for on behalf of a server in
      whatever state it is by then. A server never sends to itself. A halted server starts again. */
  function Next(c: Cluster, a: Action): Option<Cluster>
    requires Shape(c)
  {
    match a
    case Timeout(i) =>
      if i < |c.peers| && c.peers[i].status != Leader then Some(OnTimeout(c, i)) else None
    case AskVote(i, to) =>
      if i < |c.peers| && to < |c.peers| && i != to then
        Some(Send(c, VoteMessage(to, VoteRequest(c.peers[i], i))))
      else None
    case Vote(m) =>
      if m in c.net && m.VoteMessage? && m.to < |c.peers| then Some(OnVote(c, m)) else None
    case HearVote(m) =>
      if m in c.net && m.VoteAnswer? && m.to < |c.peers| then Some(OnHearVote(c, m)) else None
    case ClientCommand(i, command) =>
      if i < |c.peers| then Some(OnCommand(c, i, command)) else None
    case SendAppend(i, to, nextIndex) =>
      if i < |c.peers| && to < |c.peers| && i != to && c.peers[i].status == Leader then
        match AppendRequest(c.peers[i], i, nextIndex)
        case None => Some(Put(c, i, Restarted(c.peers[i])))
        case Some(args) => Some(Send(c, AppendMessage(to, args, c.peers[i].log, c.peers[i].commitIndex)))
      else None
    case Append(m) =>
      if m in c.net && m.AppendMessage? && m.to < |c.peers| then Some(OnDeliver(c, m)) else None
    case HearAppend(m) =>
      if m in c.net && m.AppendAnswer? && m.to < |c.peers| then
        Some(Put(c, m.to, OnAppendReply(c.peers[m.to], m.appendReply)))
      else None
    case Commit(i, index) =>
      if i < |c.peers| then Some(Put(c, i, c.peers[i].(commitIndex := index))) else None
    case TakeSnapshot(i, index) =>
      if i < |c.peers| then
        match OnSnapshot(c.peers[i], index)
        case Some(p) => Some(Put(c, i, p))
        case None => Some(Put(c, i, Restarted(c.peers[i])))
      else None
    case Restart(i) =>
      if i < |c.peers| then Some(Put(c, i, Restarted(c.peers[i]))) else None
  }

  lemma NextShape(c: Cluster, a: Action)
    requires Shape(c) && Next(c, a).Some?
    ensures Shape(Next(c, a).value)
    ensures |Next(c, a).value.peers| == |c.peers|
    ensures c.wins <= Next(c, a).value.wins && c.grants <= Next(c, a).value.grants
    ensures c.recounted ==> Next(c, a).value.recounted
    ensures c.disturbed ==> Next(c, a).value.disturbed
  {
    hide OnAppend, OnVoteRequest, OnVoteReply, OnSnapshot, HasGranted, AppendRequest;
    match a
    case Timeout(i) =>
    case AskVote(i, to) =>
    case Vote(m) =>
    case HearVote(m) =>
    case ClientCommand(i, command) =>
    case SendAppend(i, to, nextIndex) =>
    case Append(m) =>
    case _ =>
  }

  ghost function Execute(c: Cluster, actions: seq<Action>): (r: Option<Cluster>)
    requires Shape(c)
    ensures r.Some? ==> Shape(r.value)
  {
    if actions == [] then Some(c) else
      match Execute(c, actions[..|actions| - 1])
      case None => None
      case Some(d) =>
        var next := Next(d, actions[|actions| - 1]);
        if next.Some? then NextShape(d, actions[|actions| - 1]); next else None
  }
}
