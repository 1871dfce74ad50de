/** One Raft server as it keeps its state: only the entries after its snapshot, under indices of
    the whole log. Every method is proved against what the server with its whole log would do. */
module RaftNode {
  import opened Linearizability
  import opened RaftPeer
  import opened RaftApply

  datatype Persisted = Persisted(currentTerm: int, votedFor: int, logs: seq<LogEntity>, snapshotEntriesAmount: nat, lastSnapshotTerm: int)

  /** What to send to a server next. */
  datatype Outgoing = SendNothing | SendSnapshot | SendEntries(args: AppendArgs) | Halts

  /** The servers known to hold the entry, the leader among them. */
  function Holders(matchIndex: seq<int>, me: nat, n: nat, i: int): (s: set<nat>)
    ensures forall j: nat :: j in s <==> j < n && (j == me || (j < |matchIndex| && matchIndex[j] >= i))
  {
    set j: nat | j < n && (j == me || (j < |matchIndex| && matchIndex[j] >= i))
  }

  predicate AllAre(s: seq<int>, n: nat, x: int) {
    |s| == n && forall i :: 0 <= i < n ==> s[i] == x
  }

  class Raft {
    const me: nat
    const peers: nat
    var status: Status
    var numVoteGathered: int
    var currentTerm: int
    var votedFor: int
    var logs: seq<LogEntity>
    var snapshotEntriesAmount: nat
    var lastSnapshotTerm: int
    var commitIndex: int
    var lastApplied: int
    var nextIndex: seq<int>
    var matchIndex: seq<int>
    var persisted: Persisted
    var storedSnapshot: Image
    /** The whole log, the entries inside the snapshot included. */
    ghost var full: seq<LogEntity>

    ghost predicate Valid()
      reads this
    {
      && me < peers
      && Represents()
      && (status == Leader ==> |nextIndex| == |matchIndex| == peers)
    }

    ghost predicate Represents()
      reads this`full, this`logs, this`snapshotEntriesAmount, this`lastSnapshotTerm
    {
      && 1 <= |full| && snapshotEntriesAmount <= |full|
      && logs == full[snapshotEntriesAmount..]
      && lastSnapshotTerm == if snapshotEntriesAmount == 0 then -1 else full[snapshotEntriesAmount - 1].term
    }

    ghost function View(): (p: Peer)
      reads this
    {
      Peer(status, numVoteGathered, currentTerm, votedFor, full, snapshotEntriesAmount, commitIndex, lastApplied)
    }

    function PersistData(): Persisted
      reads this
    {
      Persisted(currentTerm, votedFor, logs, snapshotEntriesAmount, lastSnapshotTerm)
    }

    /** Nothing a crash may not lose is missing from what has been saved. */
    ghost predicate Durable()
      reads this
    {
      persisted == PersistData()
    }

    /** A new server, or one that finds what it saved before. */
    constructor (me: nat, peers: nat, saved: Option<Persisted>, snapshot: Image, ghost before: Peer)
      requires me < peers
      requires saved.Some? ==>
                 && WellFormed(before)
                 && saved.value == Persisted(before.currentTerm, before.votedFor, before.log[before.compacted..], before.compacted,
                                             if before.compacted == 0 then -1 else before.log[before.compacted - 1].term)
      ensures this.me == me && this.peers == peers && storedSnapshot == snapshot
      ensures Valid() && Durable()
      ensures View() == if saved.Some? then Restarted(before) else NewPeer()
      ensures status == Follower && numVoteGathered == 0 && commitIndex == -1 && lastApplied == -1
      ensures saved.Some? ==>
                && currentTerm == before.currentTerm && votedFor == before.votedFor
                && full == before.log && snapshotEntriesAmount == before.compacted
      ensures saved.None? ==>
                currentTerm == 0 && votedFor == -1 && full == [LogEntity(-1, -1)] && snapshotEntriesAmount == 0
    {
      this.me, this.peers := me, peers;
      status := Follower;
      currentTerm := 0;
      votedFor := -1;
      numVoteGathered := 0;
      logs := [LogEntity(-1, -1)];
      commitIndex := -1;
      lastApplied := -1;
      snapshotEntriesAmount := 0;
      lastSnapshotTerm := -1;
      nextIndex, matchIndex := [], [];
      storedSnapshot := snapshot;
      full := [LogEntity(-1, -1)];
      new;
      if saved.Some? {
        currentTerm := saved.value.currentTerm;
        votedFor := saved.value.votedFor;
        logs := saved.value.logs;
        snapshotEntriesAmount := saved.value.snapshotEntriesAmount;
        lastSnapshotTerm := saved.value.lastSnapshotTerm;
        full := before.log;
      }
      persisted := PersistData();
    }

    method Persist()
      modifies this`persisted
      ensures Durable()
    {
      persisted := PersistData();
    }

    // ----- Indices of the whole log

    function GetLastLogEntryIndex(): (i: int)
      reads this
      requires Represents()
      ensures i == LastIndex(View())
    {
      |logs| - 1 + snapshotEntriesAmount
    }

    /** No entry for an index inside the snapshot or beyond the log: the server halts. */
    function GetLogEntryAtIndex(index: int): (e: Option<LogEntity>)
      reads this
      requires Represents()
      ensures e == if snapshotEntriesAmount <= index < |full| then Some(full[index]) else None
    {
      if index < snapshotEntriesAmount || index > GetLastLogEntryIndex() then None
      else Some(logs[index - snapshotEntriesAmount])
    }

    function GetLastLogEntryTerm(): (t: int)
      reads this
      requires Represents()
      ensures t == LastTerm(View())
    {
      if |logs| == 0 then lastSnapshotTerm else GetLogEntryAtIndex(GetLastLogEntryIndex()).value.term
    }

    function GetLogTermAtIndex(index: int): (t: Option<int>)
      reads this
      requires Represents()
      ensures t == TermAt(View(), index)
    {
      if index + 1 == snapshotEntriesAmount then Some(lastSnapshotTerm)
      else
        match GetLogEntryAtIndex(index)
        case None => None
        case Some(e) => Some(e.term)
    }

    /** Everything from the index on; inside the snapshot, the server halts. */
    function GetLogEntryStartingAt(index: int): (s: Option<seq<LogEntity>>)
      reads this
      requires Represents()
      ensures s == if index < snapshotEntriesAmount then None else Some(if index < |full| then full[index..] else [])
    {
      if index < snapshotEntriesAmount then None
      else if index - snapshotEntriesAmount + 1 > |logs| then Some([])
      else Some(logs[index - snapshotEntriesAmount..])
    }

    function LogMatches(term: int, index: int): (r: Option<bool>)
      reads this
      requires Represents()
      ensures r == if index >= |full| then None
                   else if index == -1 then Some(true)
                   else match TermAt(View(), index) case None => None case Some(t) => Some(t == term)
    {
      if index > GetLastLogEntryIndex() then None
      else if index == -1 then Some(true)
      else
        match GetLogTermAtIndex(index)
        case None => None
        case Some(t) => Some(t == term)
    }

    function CandidateIsUpToDate(candidateLastTerm: int, candidateLastIndex: int): (r: bool)
      reads this
      requires Represents()
      ensures r == UpToDate(View(), candidateLastTerm, candidateLastIndex)
      ensures r <==> var lastTerm := full[|full| - 1].term;
                     candidateLastTerm > lastTerm || (candidateLastTerm == lastTerm && candidateLastIndex >= |full| - 1)
    {
      if candidateLastTerm > GetLastLogEntryTerm() then true
      else if candidateLastTerm == GetLastLogEntryTerm() && candidateLastIndex >= GetLastLogEntryIndex() then true
      else false
    }

    method RemoveLogFromIndex(index: int) returns (alive: bool)
      requires Valid()
      modifies this`logs, this`full
      ensures Valid()
      ensures alive <==> 0 <= index && snapshotEntriesAmount - 1 <= index < |old(full)|
      ensures full == if alive then old(full)[..index + 1] else old(full)
      ensures !alive ==> logs == old(logs)
    {
      if index + 1 != snapshotEntriesAmount && (index < snapshotEntriesAmount || index > GetLastLogEntryIndex()) {
        return false;
      }
      if index == -1 {
        return false;
      }
      logs := logs[..index - snapshotEntriesAmount + 1];
      full := full[..index + 1];
      return true;
    }

    method AppendEntries(entries: seq<LogEntity>)
      requires Valid()
      modifies this`logs, this`full
      ensures Valid() && full == old(full) + entries
    {
      logs := logs + entries;
      full := full + entries;
    }

    // ----- Roles

    method BecomeFollower(newTerm: int, votedForId: int)
      requires Valid()
      modifies this`status, this`currentTerm, this`votedFor, this`numVoteGathered, this`persisted
      ensures Valid() && Durable()
      ensures View() == RaftPeer.BecomeFollower(old(View()), newTerm, votedForId)
    {
      currentTerm := newTerm;
      votedFor := votedForId;
      status := Follower;
      numVoteGathered := 0;
      Persist();
    }

    method BecomeCandidate()
      requires Valid()
      modifies this`status, this`currentTerm, this`votedFor, this`numVoteGathered, this`persisted
      ensures Valid() && Durable()
      ensures View() == RaftPeer.BecomeCandidate(old(View()), me)
    {
      currentTerm := currentTerm + 1;
      status := Candidate;
      votedFor := me;
      numVoteGathered := 1;
      Persist();
    }

    method BecomeLeader()
      requires Valid()
      modifies this`status, this`currentTerm, this`votedFor, this`numVoteGathered, this`persisted, this`nextIndex, this`matchIndex
      ensures Valid() && Durable()
      ensures View() == RaftPeer.BecomeLeader(old(View()))
      ensures AllAre(nextIndex, peers, |full|) && AllAre(matchIndex, peers, -1)
    {
      hide Represents;
      status := Leader;
      currentTerm := currentTerm + 1;
      votedFor := -1;
      numVoteGathered := 0;
      nextIndex := [];
      for i := 0 to peers
        modifies this`nextIndex
        invariant AllAre(nextIndex, i, |full|)
      {
        nextIndex := nextIndex + [GetLastLogEntryIndex() + 1];
      }
      matchIndex := [];
      for i := 0 to peers
        modifies this`matchIndex
        invariant AllAre(matchIndex, i, -1)
      {
        matchIndex := matchIndex + [-1];
      }
      Persist();
    }

    /** Stands for election, and asks every other server for its vote. */
    method StartElection() returns (asked: seq<nat>)
      requires Valid()
      modifies this`status, this`currentTerm, this`votedFor, this`numVoteGathered, this`persisted
      ensures Valid() && Durable()
      ensures status == Candidate && currentTerm == old(currentTerm) + 1 && votedFor == me && numVoteGathered == 1
      ensures Distinct(asked) && forall j :: j in asked <==> 0 <= j < peers && j != me
    {
      BecomeCandidate();
      asked := CandidateGatherVotes();
    }

    /** The servers that requests go to. */
    method CandidateGatherVotes() returns (asked: seq<nat>)
      ensures Distinct(asked) && forall j :: j in asked <==> 0 <= j < peers && j != me
    {
      asked := [];
      for i := 0 to peers
        invariant forall k :: 0 <= k < |asked| ==> asked[k] < i
        invariant Distinct(asked) && forall j :: j in asked <==> 0 <= j < i && j != me
      {
        if i != me {
          asked := asked + [i];
        }
      }
    }

    // ----- Votes

    method GetRequestVoteArgs() returns (args: VoteArgs)
      requires Valid()
      ensures args == RaftPeer.VoteRequest(View(), me)
      ensures args.term == currentTerm && args.candidateId == me
      ensures args.lastLogIndex == |full| - 1 && args.lastLogTerm == full[|full| - 1].term
    {
      args := VoteArgs(currentTerm, me, GetLastLogEntryIndex(), GetLastLogEntryTerm());
    }

    method RequestVote(args: VoteArgs) returns (reply: VoteReply)
      requires Valid() && Durable()
      modifies this`status, this`currentTerm, this`votedFor, this`numVoteGathered, this`persisted
      ensures Valid() && Durable()
      ensures (View(), reply) == OnVoteRequest(old(View()), me, args)
      ensures reply.voteGranted <==>
                var lastTerm := full[|full| - 1].term;
                && args.term >= old(currentTerm)
                && (args.lastLogTerm > lastTerm || (args.lastLogTerm == lastTerm && args.lastLogIndex >= |full| - 1))
                && (|| args.term > old(currentTerm) || old(votedFor) == -1 || old(votedFor) == args.candidateId
                    || (old(votedFor) == me && old(status) == Candidate))
    {
      VoteEarned(View(), me, args);
      reply := VoteReply(currentTerm, false);
      if currentTerm > args.term {
        return;
      }
      if currentTerm < args.term {
        BecomeFollower(args.term, args.candidateId);
      }
      if !CandidateIsUpToDate(args.lastLogTerm, args.lastLogIndex) {
        return;
      } else if votedFor == me && status == Candidate {
        BecomeFollower(args.term, args.candidateId);
      }
      if votedFor == -1 {
        votedFor := args.candidateId;
      }
      if votedFor == args.candidateId {
        BecomeFollower(args.term, args.candidateId);
        reply := VoteReply(currentTerm, true);
      }
    }

    /** A new leader knows nothing yet of what others hold; otherwise the indices stay. */
    ghost predicate FreshIndices(was: Status, next: seq<int>, matches: seq<int>)
      reads this
    {
      if status == Leader && was != Leader then AllAre(nextIndex, peers, |full|) && AllAre(matchIndex, peers, -1)
      else nextIndex == next && matchIndex == matches
    }

    method CheckElectionStatus()
      requires Valid() && Durable()
      modifies this`status, this`currentTerm, this`votedFor, this`numVoteGathered, this`persisted, this`nextIndex, this`matchIndex
      ensures Valid() && Durable()
      ensures View() == CheckElection(old(View()), peers)
      ensures FreshIndices(old(status), old(nextIndex), old(matchIndex))
    {
      if status == Follower || status == Leader {
        return;
      }
      if numVoteGathered > peers / 2 {
        BecomeLeader();
      }
    }

    /** What a candidate does with the reply to its request. */
    method HandleVoteReply(reply: VoteReply)
      requires Valid() && Durable()
      modifies this`status, this`currentTerm, this`votedFor, this`numVoteGathered, this`persisted, this`nextIndex, this`matchIndex
      ensures Valid() && Durable()
      ensures View() == OnVoteReply(old(View()), peers, reply)
      ensures old(status) != Leader ==>
                (status == Leader <==>
                   var votes := old(numVoteGathered) + if reply.voteGranted && reply.term == old(currentTerm) then 1 else 0;
                   old(status) == Candidate && reply.term <= old(currentTerm) && 2 * votes > peers)
      ensures FreshIndices(old(status), old(nextIndex), old(matchIndex))
    {
      if reply.term > currentTerm {
        BecomeFollower(reply.term, -1);
        return;
      }
      if reply.voteGranted && reply.term == currentTerm && status == Candidate {
        numVoteGathered := numVoteGathered + 1;
      }
      CheckElectionStatus();
    }

    // ----- Appends

    method Start(command: int) returns (index: int, term: int, isLeader: bool)
      requires Valid() && Durable()
      modifies this`logs, this`full, this`persisted
      ensures Valid() && Durable()
      ensures View() == Submit(old(View()), command)
      ensures index == |old(full)| && term == currentTerm && isLeader == (status == Leader)
      ensures isLeader ==> full[index] == LogEntity(term, command)
    {
      index := GetLastLogEntryIndex() + 1;
      term := currentTerm;
      isLeader := status == Leader;
      if status != Leader {
        return;
      }
      AppendEntries([LogEntity(currentTerm, command)]);
      Persist();
    }

    method AppendEntriesWithLock(args: AppendArgs) returns (reply: AppendReply, ok: bool, alive: bool)
      requires Valid() && Durable()
      modifies this`status, this`currentTerm, this`votedFor, this`numVoteGathered, this`persisted, this`logs, this`full, this`commitIndex
      ensures Valid() && Durable()
      ensures View() == OnAppend(old(View()), args).0
      ensures if alive then OnAppend(old(View()), args).1 == Some(reply) else OnAppend(old(View()), args).1 == None
      ensures alive ==> ok == reply.success
      ensures alive && ok <==>
                && args.term >= old(currentTerm) && snapshotEntriesAmount - 1 <= args.prevLogIndex
                && 0 <= args.prevLogIndex < |old(full)| && old(full)[args.prevLogIndex].term == args.prevLogTerm
      ensures full == if alive && ok then old(full)[..args.prevLogIndex + 1] + args.entries else old(full)
      ensures commitIndex == if alive && ok && args.leaderCommit > old(commitIndex) then args.leaderCommit else old(commitIndex)
    {
      AppendEarned(View(), args);
      hide Represents, OnAppend;
      reply := AppendReply(0, false, false, 0);
      ok, alive := false, true;
      if currentTerm > args.term {
        reply := reply.(success := false, term := currentTerm);
        return;
      }
      BecomeFollower(args.term, -1);
      Persist();
      if args.prevLogIndex < snapshotEntriesAmount - 1 {
        reply := AppendReply(currentTerm, false, true, snapshotEntriesAmount);
        return;
      }
      if args.prevLogIndex > GetLastLogEntryIndex() {
        reply := reply.(success := false, term := currentTerm);
        return;
      }
      var matches := LogMatches(args.prevLogTerm, args.prevLogIndex);
      if matches == Some(false) {
        reply := reply.(success := false, term := currentTerm);
        return;
      }
      alive := TakeEntries(args);
      if !alive {
        return;
      }
      reply := reply.(success := true, term := currentTerm);
      ok := true;
    }

    /** The entries after the previous index are replaced, and the commit index moves on. */
    method TakeEntries(args: AppendArgs) returns (alive: bool)
      requires Valid() && Durable()
      modifies this`logs, this`full, this`commitIndex, this`persisted
      ensures Valid() && Durable()
      ensures alive <==> 0 <= args.prevLogIndex && snapshotEntriesAmount - 1 <= args.prevLogIndex < |old(full)|
      ensures full == if alive then old(full)[..args.prevLogIndex + 1] + args.entries else old(full)
      ensures commitIndex == if alive && args.leaderCommit > old(commitIndex) then args.leaderCommit else old(commitIndex)
    {
      hide Represents;
      alive := RemoveLogFromIndex(args.prevLogIndex);
      if !alive {
        return;
      }
      AppendEntries(args.entries);
      if commitIndex < args.leaderCommit {
        commitIndex := args.leaderCommit;
      }
      Persist();
    }

    method CreateAppendEntriesArgs(server: nat) returns (args: Option<AppendArgs>)
      requires Valid() && server < |nextIndex|
      ensures args == AppendRequest(View(), me, nextIndex[server])
      ensures args.Some? && nextIndex[server] > 0 ==>
                && args.value.prevLogIndex == nextIndex[server] - 1 && args.value.leaderCommit == commitIndex
                && full == full[..nextIndex[server]] + args.value.entries
    {
      var prevLogIndex := if nextIndex[server] == -1 then -1 else nextIndex[server] - 1;
      var prevLogTerm := GetLogTermAtIndex(prevLogIndex);
      if prevLogTerm.None? {
        return None;
      }
      var entries := GetLogEntryStartingAt(prevLogIndex + 1);
      assert prevLogIndex + 1 == |full| ==> full[prevLogIndex + 1..] == [];
      args := Some(AppendArgs(currentTerm, me, prevLogIndex, prevLogTerm.value, entries.value, commitIndex));
    }

    /** A server that needs entries from inside the snapshot is sent the snapshot. */
    method ChooseOutgoing(server: nat) returns (out: Outgoing)
      requires Valid() && server < |nextIndex|
      modifies this`nextIndex
      ensures Valid() && |nextIndex| == |old(nextIndex)|
      ensures nextIndex == old(nextIndex)[server := if out == SendSnapshot then snapshotEntriesAmount else old(nextIndex)[server]]
      ensures out == if old(nextIndex)[server] < snapshotEntriesAmount then SendSnapshot
                     else if status != Leader then SendNothing
                     else match AppendRequest(View(), me, nextIndex[server]) case None => Halts case Some(args) => SendEntries(args)
    {
      if nextIndex[server] < snapshotEntriesAmount {
        nextIndex := nextIndex[server := snapshotEntriesAmount];
        return SendSnapshot;
      }
      if status != Leader {
        return SendNothing;
      }
      var args := CreateAppendEntriesArgs(server);
      out := if args.None? then Halts else SendEntries(args.value);
    }

    /** An entry of the leader's own term that a majority holds. */
    ghost predicate Committable(i: int)
      reads this`full, this`matchIndex, this`snapshotEntriesAmount, this`currentTerm
    {
      && snapshotEntriesAmount <= i < |full|
      && 2 * |Holders(matchIndex, me, peers, i)| > peers
      && full[i].term == currentTerm
    }

    /** Moves the commit index to the last entry that may be committed, never back; and never halts. */
    method LeaderUpdateCommit()
      requires Valid() && status == Leader
      modifies this`commitIndex
      ensures Valid()
      ensures commitIndex == old(commitIndex) || (commitIndex > old(commitIndex) && Committable(commitIndex))
      ensures forall i :: Committable(i) ==> i <= commitIndex
    {
      var newCommitIndex := commitIndex;
      for j := 0 to |logs|
        invariant newCommitIndex == commitIndex || (newCommitIndex > commitIndex && Committable(newCommitIndex))
        invariant newCommitIndex < snapshotEntriesAmount + j || newCommitIndex == commitIndex
        invariant forall i :: i < snapshotEntriesAmount + j && Committable(i) ==> i <= newCommitIndex
      {
        var i := j + snapshotEntriesAmount;
        if i < newCommitIndex {
          continue;
        }
        var count := 1;
        ghost var holding: set<nat> := {me};
        for k := 0 to peers
          invariant holding == (set x: nat | x < peers && (x == me || (x < k && matchIndex[x] >= i)))
          invariant count == |holding|
        {
          if k != me && matchIndex[k] >= i {
            count := count + 1;
            holding := holding + {k};
          }
        }
        assert holding == Holders(matchIndex, me, peers, i);
        if count > peers / 2 && GetLogEntryAtIndex(i).value.term == currentTerm {
          newCommitIndex := i;
        }
      }
      assert !(newCommitIndex < commitIndex);
      assert newCommitIndex > -1 && commitIndex != newCommitIndex ==> GetLogEntryAtIndex(newCommitIndex).value.term == currentTerm;
      commitIndex := newCommitIndex;
    }

    /** What the leader does with the reply to an append; and whether it now sends a snapshot. */
    method HandleAppendReply(server: nat, args: AppendArgs, reply: AppendReply) returns (alive: bool, sendSnapshot: bool)
      requires Valid() && Durable() && server < peers
      modifies this`status, this`currentTerm, this`votedFor, this`numVoteGathered, this`persisted, this`commitIndex, this`nextIndex, this`matchIndex
      ensures Valid() && Durable()
      ensures View() == OnAppendReply(old(View()), reply).(commitIndex := commitIndex)
      ensures old(status) != Leader ==> alive && nextIndex == old(nextIndex) && matchIndex == old(matchIndex)
      ensures old(status) == Leader && reply.success ==>
                && alive
                && nextIndex == old(nextIndex)[server := args.prevLogIndex + |args.entries| + 1]
                && matchIndex == old(matchIndex)[server := args.prevLogIndex + |args.entries|]
                && (commitIndex == old(commitIndex) || (commitIndex > old(commitIndex) && Committable(commitIndex)))
                && (forall i :: Committable(i) ==> i <= commitIndex)
      ensures !(old(status) == Leader && reply.success) ==> commitIndex == old(commitIndex)
      ensures sendSnapshot ==> old(status) == Leader && !reply.success && !reply.inSnapshot && reply.term <= old(currentTerm)
      ensures old(status) == Leader && !reply.success && !reply.inSnapshot && reply.term > old(currentTerm) ==>
                alive && nextIndex == old(nextIndex)
      ensures old(status) == Leader && !reply.success ==> matchIndex == old(matchIndex)
      ensures old(status) == Leader && !reply.success && reply.inSnapshot ==>
                alive && nextIndex == old(nextIndex)[server := reply.snapshotAmount]
      ensures old(status) == Leader && !reply.success && !reply.inSnapshot && reply.term <= old(currentTerm) ==>
                && (alive <==> old(nextIndex)[server] - 2 < |full|)
                && (alive ==>
                      && nextIndex == old(nextIndex)[server := nextIndex[server]]
                      && BacksOff(old(nextIndex)[server], nextIndex[server])
                      && sendSnapshot == (nextIndex[server] <= snapshotEntriesAmount && snapshotEntriesAmount > 0))
    {
      alive, sendSnapshot := true, false;
      if status != Leader {
        return;
      } else if reply.success {
        nextIndex := nextIndex[server := args.prevLogIndex + |args.entries| + 1];
        matchIndex := matchIndex[server := args.prevLogIndex + |args.entries|];
        LeaderUpdateCommit();
      } else if reply.inSnapshot {
        nextIndex := nextIndex[server := reply.snapshotAmount];
      } else if currentTerm < reply.term {
        BecomeFollower(reply.term, -1);
      } else {
        alive := BackOff(server);
        sendSnapshot := alive && nextIndex[server] <= snapshotEntriesAmount && snapshotEntriesAmount > 0;
      }
    }

    /** The next try starts after the last entry of another term than the one before it, or as early
        as the log still goes. */
    ghost predicate BacksOff(was: int, now: int)
      reads this
      requires Represents()
    {
      var start := if was - 1 < snapshotEntriesAmount || was - 1 < 1
                   then (if snapshotEntriesAmount < 1 then 1 else snapshotEntriesAmount) else was - 1;
      var lowest := if snapshotEntriesAmount < 1 then 1 else snapshotEntriesAmount;
      && 1 <= now <= start <= |full|
      && (forall k :: now - 1 < k < start ==> full[k].term == full[start - 1].term)
      && (now - 1 <= lowest || full[now - 1].term != full[start - 1].term)
      && (now == start || now - 1 >= lowest)
    }

    method BackOff(server: nat) returns (alive: bool)
      requires Valid() && server < |nextIndex|
      modifies this`nextIndex
      ensures Valid() && |nextIndex| == |old(nextIndex)|
      ensures alive <==> old(nextIndex)[server] - 2 < |full|
      ensures alive ==>
                && nextIndex == old(nextIndex)[server := nextIndex[server]]
                && BacksOff(old(nextIndex)[server], nextIndex[server])
    {
      ghost var was := nextIndex;
      var next := nextIndex[server] - 1;
      if next < snapshotEntriesAmount {
        next := snapshotEntriesAmount;
      }
      if next < 1 {
        next := 1;
      }
      nextIndex := nextIndex[server := next];
      var preCurIndex := next - 1;
      var curTerm := GetLogTermAtIndex(preCurIndex);
      if curTerm.None? {
        return false;
      }
      while preCurIndex > 1 && preCurIndex > snapshotEntriesAmount && GetLogEntryAtIndex(preCurIndex).value.term == curTerm.value
        invariant 0 <= preCurIndex < next && snapshotEntriesAmount - 1 <= preCurIndex
        invariant preCurIndex == next - 1 || (preCurIndex >= 1 && preCurIndex >= snapshotEntriesAmount)
        invariant forall k :: preCurIndex < k < next ==> full[k].term == curTerm.value
      {
        preCurIndex := preCurIndex - 1;
      }
      nextIndex := nextIndex[server := preCurIndex + 1];
      alive := true;
    }

    // ----- The service

    method CommitToApplyChannelWithLock() returns (applyMsgs: seq<ApplyMsg>, alive: bool)
      requires Valid() && Durable() && lastApplied >= -1
      modifies this`lastApplied, this`persisted
      ensures Valid() && Durable()
      ensures match Ready(old(View()), storedSnapshot)
              case None => !alive && View() == old(View())
              case Some((p, msgs)) => alive && View() == p && applyMsgs == msgs
      ensures lastApplied == if !alive then old(lastApplied)
                             else if old(lastApplied) + 1 < snapshotEntriesAmount then snapshotEntriesAmount - 1
                             else if old(lastApplied) < commitIndex then commitIndex
                             else old(lastApplied)
    {
      applyMsgs, alive := [], true;
      Persist();
      assert snapshotEntriesAmount > 0 ==> lastSnapshotTerm == full[snapshotEntriesAmount - 1].term;
      hide Represents;
      if lastApplied + 1 < snapshotEntriesAmount {
        lastApplied := snapshotEntriesAmount - 1;
        applyMsgs := [SnapshotMsg(storedSnapshot, lastSnapshotTerm, snapshotEntriesAmount - 1)];
        return;
      }
      if lastApplied >= commitIndex {
        return;
      }
      var i := lastApplied + 1;
      while i < commitIndex + 1
        invariant lastApplied + 1 <= i <= commitIndex + 1
        invariant if i <= |full| then applyMsgs == Commands(full, lastApplied + 1, i) else i == lastApplied + 1
      {
        var e := GetLogEntryAtIndex(i);
        if e.None? {
          return [], false;
        }
        applyMsgs := applyMsgs + [CommandMsg(i != 0, e.value.action, i)];
        i := i + 1;
      }
      lastApplied := commitIndex;
    }

    /** From now on a snapshot stands for the entries up to index, which are covered. */
    method ReplaceBySnapshot(index: nat, term: int, ghost covered: seq<LogEntity>)
      requires Represents() && snapshotEntriesAmount <= index == |covered| - 1 && covered[index].term == term
      modifies this`lastSnapshotTerm, this`logs, this`snapshotEntriesAmount, this`full
      ensures Represents()
      ensures snapshotEntriesAmount == index + 1
      ensures full == covered + if |covered| < |old(full)| then old(full)[|covered|..] else []
    {
      var rest := GetLogEntryStartingAt(index + 1).value;
      lastSnapshotTerm := term;
      logs := rest;
      snapshotEntriesAmount := index + 1;
      full := covered + logs;
    }

    method Snapshot(index: int, snapshot: Image) returns (alive: bool)
      requires Valid() && Durable()
      modifies this`lastSnapshotTerm, this`logs, this`snapshotEntriesAmount, this`lastApplied, this`persisted, this`storedSnapshot, this`full
      ensures Valid() && Durable()
      ensures alive <==> OnSnapshot(old(View()), index).Some?
      ensures alive ==> View() == OnSnapshot(old(View()), index).value
      ensures full == old(full)
      ensures snapshotEntriesAmount == if alive && old(snapshotEntriesAmount) <= index <= commitIndex then index + 1 else old(snapshotEntriesAmount)
      ensures !alive <==> old(snapshotEntriesAmount) <= index <= commitIndex && index >= |full|
      ensures storedSnapshot == if alive && TakesSnapshot(old(View()), index) then snapshot else old(storedSnapshot)
    {
      hide Represents;
      if snapshotEntriesAmount - 1 >= index || index > commitIndex {
        return true;
      }
      var e := GetLogEntryAtIndex(index);
      if e.None? {
        return false;
      }
      assert full[..index + 1] + full[index + 1..] == full;
      ReplaceBySnapshot(index, e.value.term, full[..index + 1]);
      if index > lastApplied {
        lastApplied := index;
      }
      Persist();
      storedSnapshot := snapshot;
      return true;
    }

    method InstallSnapshotLocked(args: InstallArgs, ghost covered: seq<LogEntity>) returns (term: int, installed: bool)
      requires Valid() && Durable()
      requires TakesInstall(View(), args) ==> |covered| == args.lastIncludedIndex + 1 && covered[args.lastIncludedIndex].term == args.lastIncludedTerm
      modifies this`status, this`currentTerm, this`votedFor, this`numVoteGathered, this`persisted, this`lastSnapshotTerm, this`logs, this`snapshotEntriesAmount, this`storedSnapshot, this`full
      ensures Valid() && Durable() && term == currentTerm
      ensures View() == OnInstall(old(View()), args, covered)
      ensures installed == TakesInstall(old(View()), args)
      ensures installed <==> args.term >= old(currentTerm) && args.lastIncludedIndex >= old(snapshotEntriesAmount)
      ensures snapshotEntriesAmount == if installed then args.lastIncludedIndex + 1 else old(snapshotEntriesAmount)
      ensures storedSnapshot == if installed then args.data else old(storedSnapshot)
    {
      InstallMeans(View(), args, covered);
      hide OnInstall, Represents;
      if args.term < currentTerm {
        return currentTerm, false;
      }
      BecomeFollower(args.term, -1);
      Persist();
      if snapshotEntriesAmount > args.lastIncludedIndex {
        return currentTerm, false;
      }
      ReplaceBySnapshot(args.lastIncludedIndex, args.lastIncludedTerm, covered);
      Persist();
      storedSnapshot := args.data;
      return currentTerm, true;
    }

    method CreateInstallSnapshotArgs() returns (args: InstallArgs)
      requires Valid()
      ensures args == InstallArgs(currentTerm, me, snapshotEntriesAmount - 1, lastSnapshotTerm, storedSnapshot)
      ensures snapshotEntriesAmount > 0 ==> args.lastIncludedTerm == full[args.lastIncludedIndex].term
    {
      args := InstallArgs(currentTerm, me, snapshotEntriesAmount - 1, lastSnapshotTerm, storedSnapshot);
    }
  }
}
