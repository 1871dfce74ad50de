/** One Raft server, seen with its whole log: what it does on each message and timeout. */
module RaftPeer {
  import opened Linearizability

  datatype Status = Follower | Candidate | Leader

  datatype LogEntity = LogEntity(term: int, action: int)

  /** log is the whole log, of which the first compacted entries now live in a snapshot. */
  datatype Peer = Peer(
    status: Status,
    numVoteGathered: int,
    currentTerm: int,
    votedFor: int,
    log: seq<LogEntity>,
    compacted: nat,
    commitIndex: int,
    lastApplied: int)

  datatype AppendArgs = AppendArgs(term: int, leaderId: int, prevLogIndex: int, prevLogTerm: int, entries: seq<LogEntity>, leaderCommit: int)
  datatype AppendReply = AppendReply(term: int, success: bool, inSnapshot: bool, snapshotAmount: int)
  datatype VoteArgs = VoteArgs(term: int, candidateId: int, lastLogIndex: int, lastLogTerm: int)
  datatype VoteReply = VoteReply(term: int, voteGranted: bool)

  function Filler(): LogEntity {
    LogEntity(-1, -1)
  }

  function NewPeer(): Peer {
    Peer(Follower, 0, 0, -1, [Filler()], 0, -1, -1)
  }

  /** Some entry is always left, if only inside the snapshot. */
  predicate WellFormed(p: Peer) {
    1 <= |p.log| && p.compacted <= |p.log|
  }

  /** What a crash leaves. */
  function Restarted(p: Peer): Peer {
    p.(status := Follower, numVoteGathered := 0, commitIndex := -1, lastApplied := -1)
  }

  function LastIndex(p: Peer): int {
    |p.log| - 1
  }

  function LastTerm(p: Peer): int
    requires WellFormed(p)
  {
    p.log[|p.log| - 1].term
  }

  /** The term of an entry that can still be told; anything else halts the server. */
  function TermAt(p: Peer, index: int): Option<int> {
    if index == -1 && p.compacted == 0 then Some(-1)
    else if p.compacted - 1 <= index < |p.log| && 0 <= index then Some(p.log[index].term)
    else None
  }

  // ----- Elections

  function BecomeFollower(p: Peer, newTerm: int, votedFor: int): Peer {
    p.(status := Follower, currentTerm := newTerm, votedFor := votedFor, numVoteGathered := 0)
  }

  function BecomeCandidate(p: Peer, me: int): Peer {
    p.(status := Candidate, currentTerm := p.currentTerm + 1, votedFor := me, numVoteGathered := 1)
  }

  /** A leader's term is one more than the term it was elected in. */
  function BecomeLeader(p: Peer): Peer {
    p.(status := Leader, currentTerm := p.currentTerm + 1, votedFor := -1, numVoteGathered := 0)
  }

  predicate UpToDate(p: Peer, lastTerm: int, lastIndex: int)
    requires WellFormed(p)
  {
    lastTerm > LastTerm(p) || (lastTerm == LastTerm(p) && lastIndex >= LastIndex(p))
  }

  /** A candidate that hears from one of its own term with a good enough log gives up its own vote. */
  function OnVoteRequest(p: Peer, me: int, args: VoteArgs): (r: (Peer, VoteReply))
    requires WellFormed(p)
    ensures WellFormed(r.0)
  {
    var refusal := VoteReply(p.currentTerm, false);
    if p.currentTerm > args.term then
      (p, refusal)
    else
      var q := if p.currentTerm < args.term then BecomeFollower(p, args.term, args.candidateId) else p;
      if !UpToDate(q, args.lastLogTerm, args.lastLogIndex) then
        (q, refusal)
      else
        var r := if q.votedFor == me && q.status == Candidate then BecomeFollower(q, args.term, args.candidateId) else q;
        if r.votedFor == -1 || r.votedFor == args.candidateId then
          (BecomeFollower(r, args.term, args.candidateId), VoteReply(args.term, true))
        else
          (r, refusal)
  }

  /** Whose request earns a vote: it is of no earlier term, names a last entry not behind the last one
      here, and nobody else has the vote of its term, but for a candidate's own. */
  lemma VoteEarned(p: Peer, me: int, args: VoteArgs)
    requires WellFormed(p)
    ensures var (q, reply) := OnVoteRequest(p, me, args);
            var lastTerm, lastIndex := p.log[|p.log| - 1].term, |p.log| - 1;
            && (reply.voteGranted <==>
                  && args.term >= p.currentTerm
                  && (args.lastLogTerm > lastTerm || (args.lastLogTerm == lastTerm && args.lastLogIndex >= lastIndex))
                  && (|| args.term > p.currentTerm || p.votedFor == -1 || p.votedFor == args.candidateId
                      || (p.votedFor == me && p.status == Candidate)))
            && (reply.voteGranted ==>
                  && reply.term == args.term
                  && q == p.(status := Follower, currentTerm := args.term, votedFor := args.candidateId, numVoteGathered := 0))
            && (!reply.voteGranted ==>
                  && reply.term == p.currentTerm
                  && q == if args.term <= p.currentTerm then p
                          else p.(status := Follower, currentTerm := args.term, votedFor := args.candidateId, numVoteGathered := 0))
  {
  }

  function CheckElection(p: Peer, peers: nat): Peer {
    if p.status == Candidate && p.numVoteGathered > peers / 2 then BecomeLeader(p) else p
  }

  predicate CountsVote(p: Peer, reply: VoteReply) {
    reply.voteGranted && reply.term == p.currentTerm && p.status == Candidate
  }

  function OnVoteReply(p: Peer, peers: nat, reply: VoteReply): (r: Peer)
    ensures r.log == p.log && r.compacted == p.compacted
  {
    if reply.term > p.currentTerm then
      BecomeFollower(p, reply.term, -1)
    else
      CheckElection(if CountsVote(p, reply) then p.(numVoteGathered := p.numVoteGathered + 1) else p, peers)
  }

  /** A server takes office exactly when it is a candidate and has, with this reply, the votes of a
      majority; and steps down exactly for a later term. */
  lemma OfficeEarned(p: Peer, peers: nat, reply: VoteReply)
    ensures var q := OnVoteReply(p, peers, reply);
            var votes := p.numVoteGathered + if reply.voteGranted && reply.term == p.currentTerm then 1 else 0;
            if reply.term > p.currentTerm then
              q == p.(status := Follower, currentTerm := reply.term, votedFor := -1, numVoteGathered := 0)
            else if p.status != Candidate then q == p
            else if 2 * votes > peers then
              q == p.(status := Leader, currentTerm := p.currentTerm + 1, votedFor := -1, numVoteGathered := 0)
            else q == p.(numVoteGathered := votes)
  {
  }

  function VoteRequest(p: Peer, me: int): VoteArgs
    requires WellFormed(p)
  {
    VoteArgs(p.currentTerm, me, LastIndex(p), LastTerm(p))
  }

  // ----- The log

  function Submit(p: Peer, command: int): Peer {
    if p.status == Leader then p.(log := p.log + [LogEntity(p.currentTerm, command)]) else p
  }

  /** The message to a server whose next entry is nextIndex: always the whole rest of the log. */
  function AppendRequest(p: Peer, me: int, nextIndex: int): Option<AppendArgs> {
    var prev := if nextIndex == -1 then -1 else nextIndex - 1;
    match TermAt(p, prev)
    case None => None
    case Some(term) => Some(AppendArgs(p.currentTerm, me, prev, term, p.log[prev + 1..], p.commitIndex))
  }

  /** No reply means that the server has halted. */
  function OnAppend(p: Peer, args: AppendArgs): (r: (Peer, Option<AppendReply>))
    requires WellFormed(p)
    ensures WellFormed(r.0)
  {
    if p.currentTerm > args.term then
      (p, Some(AppendReply(p.currentTerm, false, false, 0)))
    else
      var q := BecomeFollower(p, args.term, -1);
      if args.prevLogIndex < p.compacted - 1 then
        (q, Some(AppendReply(args.term, false, true, p.compacted)))
      else if args.prevLogIndex > LastIndex(p) then
        (q, Some(AppendReply(args.term, false, false, 0)))
      else if args.prevLogIndex == -1 then
        (q, None)
      else if p.log[args.prevLogIndex].term != args.prevLogTerm then
        (q, Some(AppendReply(args.term, false, false, 0)))
      else
        (q.(log := p.log[..args.prevLogIndex + 1] + args.entries,
            commitIndex := if p.commitIndex < args.leaderCommit then args.leaderCommit else p.commitIndex),
         Some(AppendReply(args.term, true, false, 0)))
  }

  function OnAppendReply(p: Peer, reply: AppendReply): Peer {
    if p.status == Leader && !reply.success && !reply.inSnapshot && p.currentTerm < reply.term then
      BecomeFollower(p, reply.term, -1)
    else p
  }

  predicate TakesSnapshot(p: Peer, index: int) {
    p.compacted <= index <= p.commitIndex
  }

  /** The service has a snapshot up to index; a server whose log ends before it halts. */
  function OnSnapshot(p: Peer, index: int): (r: Option<Peer>)
    ensures r.Some? ==> r.value.log == p.log && (r.value.compacted <= |p.log| || r.value == p)
  {
    if !TakesSnapshot(p, index) then Some(p)
    else if index >= |p.log| then None
    else Some(p.(compacted := index + 1, lastApplied := if index > p.lastApplied then index else p.lastApplied))
  }

  // ----- What messages bring about

  /** Exactly which appends are accepted, and what becomes of log, commit index and answer in every case. */
  lemma AppendEarned(p: Peer, args: AppendArgs)
    requires WellFormed(p)
    ensures var (q, reply) := OnAppend(p, args);
            var prev, current := args.prevLogIndex, args.term >= p.currentTerm;
            var accepted := reply.Some? && reply.value.success;
            && (accepted <==> current && p.compacted - 1 <= prev && 0 <= prev < |p.log| && p.log[prev].term == args.prevLogTerm)
            && (reply.None? <==> current && prev == -1 && p.compacted == 0)
            && q.log == (if accepted then p.log[..prev + 1] + args.entries else p.log)
            && q.commitIndex == (if accepted && args.leaderCommit > p.commitIndex then args.leaderCommit else p.commitIndex)
            && q == (if current then p.(status := Follower, currentTerm := args.term, votedFor := -1, numVoteGathered := 0,
                                        log := q.log, commitIndex := q.commitIndex)
                     else p)
            && (reply.Some? ==>
                  && reply.value.term == q.currentTerm
                  && (reply.value.inSnapshot <==> current && prev < p.compacted - 1)
                  && reply.value.snapshotAmount == if reply.value.inSnapshot then p.compacted else 0)
  {
  }

  /** A leader can send from every place its log still tells of, and sends the entry before and all the
      rest, with its term and commit index. */
  lemma RequestMeans(p: Peer, me: int, nextIndex: int)
    requires WellFormed(p)
    ensures var request := AppendRequest(p, me, nextIndex);
            && (request.Some? <==> if nextIndex == 0 || nextIndex == -1 then p.compacted == 0 else 0 < nextIndex && p.compacted <= nextIndex <= |p.log|)
            && (request.Some? ==>
                  && request.value.term == p.currentTerm && request.value.leaderId == me && request.value.leaderCommit == p.commitIndex
                  && request.value.prevLogIndex == (if nextIndex == -1 then -1 else nextIndex - 1)
                  && (nextIndex > 0 ==> request.value.prevLogTerm == p.log[nextIndex - 1].term)
                  && p.log == p.log[..request.value.prevLogIndex + 1] + request.value.entries)
  {
  }

  /** A follower of no later term whose log is the leader's up to where the leader sends from ends up with
      the leader's log, and with a commit index no smaller. */
  lemma MatchingFollowerCatchesUp(p: Peer, q: Peer, me: int, nextIndex: nat)
    requires WellFormed(p) && WellFormed(q) && q.currentTerm <= p.currentTerm
    requires 0 < nextIndex && p.compacted <= nextIndex <= |p.log| && q.compacted <= nextIndex <= |q.log|
    requires p.log[..nextIndex] == q.log[..nextIndex]
    ensures AppendRequest(p, me, nextIndex).Some?
    ensures var (r, reply) := OnAppend(q, AppendRequest(p, me, nextIndex).value);
            && reply.Some? && reply.value.success && r.log == p.log
            && r.commitIndex >= p.commitIndex && r.commitIndex >= q.commitIndex
  {
    RequestMeans(p, me, nextIndex);
    var args := AppendRequest(p, me, nextIndex).value;
    AppendEarned(q, args);
    assert p.log[..nextIndex][nextIndex - 1] == q.log[..nextIndex][nextIndex - 1];
    hide OnAppend, AppendRequest;
  }

  /** A leader steps down exactly on a refusal from a later term. */
  lemma ReplyMeans(p: Peer, reply: AppendReply)
    ensures OnAppendReply(p, reply)
         == if p.status == Leader && !reply.success && !reply.inSnapshot && reply.term > p.currentTerm
            then p.(status := Follower, currentTerm := reply.term, votedFor := -1, numVoteGathered := 0)
            else p
  {
  }

  /** A snapshot is taken exactly of entries not yet compacted and committed; what it covers counts as
      told, and the log stays. */
  lemma SnapshotMeans(p: Peer, index: int)
    ensures var q := OnSnapshot(p, index);
            && (q.None? <==> p.compacted <= index <= p.commitIndex && index >= |p.log|)
            && (q.Some? ==>
                  && q.value.log == p.log
                  && q.value == p.(compacted := q.value.compacted, lastApplied := q.value.lastApplied)
                  && q.value.compacted == (if p.compacted <= index <= p.commitIndex then index + 1 else p.compacted)
                  && q.value.lastApplied == if p.compacted <= index <= p.commitIndex && index > p.lastApplied then index else p.lastApplied)
  {
  }

  // ----- Compaction does not show

  datatype Event =
    | GotAppend(args: AppendArgs)
    | GotAppendReply(appendReply: AppendReply)
    | AskedForVote(request: VoteArgs)
    | GotVote(voteReply: VoteReply)
    | TimedOut
    | GotCommand(command: int)
    | Committed(index: int)
    | MakesSnapshot(index: int)

  datatype Answer = ToAppend(appendAnswer: Option<AppendReply>) | ToVote(voteAnswer: VoteReply) | Nothing | Halt

  function Respond(p: Peer, me: int, peers: nat, event: Event): (Peer, Answer)
    requires WellFormed(p)
  {
    match event
    case GotAppend(args) => var (q, reply) := OnAppend(p, args); (q, ToAppend(reply))
    case GotAppendReply(reply) => (OnAppendReply(p, reply), Nothing)
    case AskedForVote(request) => var (q, reply) := OnVoteRequest(p, me, request); (q, ToVote(reply))
    case GotVote(reply) => (OnVoteReply(p, peers, reply), Nothing)
    case TimedOut => (BecomeCandidate(p, me), Nothing)
    case GotCommand(command) => (Submit(p, command), Nothing)
    case Committed(index) => (p.(commitIndex := index), Nothing)
    case MakesSnapshot(index) =>
      match OnSnapshot(p, index)
      case Some(q) => (q, Nothing)
      case None => (p, Halt)
  }

  /** An append starts no earlier than the last compacted entry; a snapshot covers what the log has. */
  predicate InReach(p: Peer, event: Event) {
    match event
    case GotAppend(args) => args.prevLogIndex >= p.compacted - 1
    case MakesSnapshot(index) => index < |p.log|
    case _ => true
  }

  /** The final state and all answers, as long as every event is in reach. */
  function Play(p: Peer, me: int, peers: nat, events: seq<Event>): Option<(Peer, seq<Answer>)>
    requires WellFormed(p)
    ensures Play(p, me, peers, events).Some? ==> WellFormed(Play(p, me, peers, events).value.0)
  {
    if events == [] then Some((p, [])) else
      match Play(p, me, peers, events[..|events| - 1])
      case None => None
      case Some((q, answers)) =>
        var event := events[|events| - 1];
        if InReach(q, event) then
          var (r, answer) := Respond(q, me, peers, event);
          Some((r, answers + [answer]))
        else None
  }

  function WithoutSnapshot(event: Event): Event {
    if event.MakesSnapshot? then MakesSnapshot(-1) else event
  }

  function WithoutSnapshots(events: seq<Event>): (r: seq<Event>)
    ensures |r| == |events| && forall i :: 0 <= i < |r| ==> r[i] == WithoutSnapshot(events[i])
  {
    seq(|events|, i requires 0 <= i < |events| => WithoutSnapshot(events[i]))
  }

  /** What a server is apart from its snapshot. */
  function Plain(p: Peer): Peer {
    p.(compacted := 0, lastApplied := -1)
  }

  /** Taking snapshots is invisible: whatever happens, a server gives the answers and holds the
      whole log of one that never takes any. */
  lemma {:induction false} SnapshotsInvisible(p: Peer, q: Peer, me: int, peers: nat, events: seq<Event>)
    requires WellFormed(p) && WellFormed(q) && Plain(p) == Plain(q) && q.compacted == 0
    requires Play(p, me, peers, events).Some?
    ensures var plain := Play(q, me, peers, WithoutSnapshots(events));
            && plain.Some?
            && plain.value.1 == Play(p, me, peers, events).value.1
            && plain.value.0.compacted == 0
            && Plain(plain.value.0) == Plain(Play(p, me, peers, events).value.0)
  {
    if events != [] {
      var front, event := events[..|events| - 1], events[|events| - 1];
      SnapshotsInvisible(p, q, me, peers, front);
      assert WithoutSnapshots(events)[..|events| - 1] == WithoutSnapshots(front);
      SameResponse(Play(p, me, peers, front).value.0, Play(q, me, peers, WithoutSnapshots(front)).value.0, me, peers, event);
    }
  }

  lemma SameResponse(p: Peer, q: Peer, me: int, peers: nat, event: Event)
    requires WellFormed(p) && WellFormed(q) && Plain(p) == Plain(q) && q.compacted == 0 && InReach(p, event)
    ensures InReach(q, WithoutSnapshot(event))
    ensures var (p', a) := Respond(p, me, peers, event);
            var (q', b) := Respond(q, me, peers, WithoutSnapshot(event));
            a == b && q'.compacted == 0 && Plain(p') == Plain(q')
  {
  }
}
