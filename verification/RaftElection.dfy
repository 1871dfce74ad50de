/** Elections, as in section 5.2 of "In Search of an Understandable Consensus Algorithm (Extended
    Version)", for candidates that may give up the vote they gave themselves. */
module RaftElection {
  import opened Linearizability
  import opened RaftPeer
  import opened RaftCluster
  import opened RaftLog

  /** A granted vote binds its server for the rest of the term. */
  ghost predicate GrantOk(c: Cluster, g: Grant) {
    && g.voter < |c.peers|
    && g.candidate != g.voter
    && 0 <= g.candidate < |c.peers|
    && g.term <= c.peers[g.voter].currentTerm
    && (g.term == c.peers[g.voter].currentTerm ==>
          c.peers[g.voter].status == Follower && c.peers[g.voter].votedFor == g.candidate)
  }

  ghost predicate GrantsUnique(c: Cluster) {
    forall g, h :: g in c.grants && h in c.grants && g.voter == h.voter && g.term == h.term ==> g.candidate == h.candidate
  }

  /** A candidate's votes are its own and one from each server whose vote it counted. */
  ghost predicate CountOk(c: Cluster, i: nat)
    requires i < |c.peers| && Shape(c)
  {
    c.peers[i].status == Candidate ==>
      && c.peers[i].numVoteGathered == 1 + |c.counted[i]|
      && i !in c.counted[i]
      && forall j :: j in c.counted[i] ==> j < |c.peers| && Grant(j, c.peers[i].currentTerm, i) in c.grants
  }

  ghost predicate WinnerOk(c: Cluster, w: Win) {
    && w.server < |c.peers| && w.term < c.peers[w.server].currentTerm
    && w.server in w.quorum && 2 * |w.quorum| > |c.peers|
    && (forall j :: j in w.quorum ==> j < |c.peers|)
    && (forall j :: j in w.quorum && j != w.server ==> Grant(j, w.term, w.server) in c.grants)
    && (forall g :: g in c.grants && g.voter == w.server ==> g.term != w.term)
  }

  ghost predicate NoteOk(c: Cluster, m: Message) {
    match m
    case VoteMessage(to, request) => 0 <= request.candidateId < |c.peers| && request.candidateId != to
    case VoteAnswer(from, to, reply) => from < |c.peers| && from != to && (reply.voteGranted ==> Grant(from, reply.term, to) in c.grants)
    case _ => true
  }

  ghost predicate Votes(c: Cluster) {
    && Shape(c)
    && (forall g :: g in c.grants ==> GrantOk(c, g))
    && GrantsUnique(c)
    && (forall i :: 0 <= i < |c.peers| ==> CountOk(c, i))
    && (forall w :: w in c.wins ==> WinnerOk(c, w))
    && (forall m :: m in c.net ==> NoteOk(c, m))
  }

  /** Two majorities share a server, so two winners of a term would share a voter. */
  lemma WinnersMeet(c: Cluster)
    requires Votes(c)
    ensures OneWinnerPerTerm(c)
  {
    forall v, w | v in c.wins && w in c.wins && v.term == w.term ensures v.server == w.server {
      assert WinnerOk(c, v) && WinnerOk(c, w);
      var j := SharedVoter(v.quorum, w.quorum, |c.peers|);
      assert j == v.server || Grant(j, v.term, v.server) in c.grants;
      assert j == w.server || Grant(j, w.term, w.server) in c.grants;
    }
  }

  lemma SharedVoter(a: set<nat>, b: set<nat>, n: nat) returns (j: nat)
    requires forall i :: i in a ==> i < n
    requires forall i :: i in b ==> i < n
    requires 2 * |a| > n && 2 * |b| > n
    ensures j in a && j in b
  {
    SubsetSize(a + b, Ids(n));
    assert |a + b| == |a| + |b| - |a * b|;
    assert a * b != {};
    j :| j in a * b;
  }

  /** No vote is granted and none counted, and nobody wins. */
  lemma NoVotes(c: Cluster, d: Cluster)
    requires Votes(c) && Shape(d) && |d.peers| == |c.peers|
    requires d.grants == c.grants && d.wins == c.wins
    requires forall i :: 0 <= i < |d.peers| ==> PeerStays(c, d, i)
    requires forall m :: m in d.net ==> m in c.net || NoteOk(c, m)
    ensures Votes(d)
  {
    forall g | g in d.grants ensures GrantOk(d, g) { assert GrantOk(c, g) && PeerStays(c, d, g.voter); }
    forall w | w in d.wins ensures WinnerOk(d, w) { assert WinnerOk(c, w) && PeerStays(c, d, w.server); }
    forall m | m in d.net ensures NoteOk(d, m) { assert NoteOk(c, m); }
    forall i | 0 <= i < |d.peers| ensures CountOk(d, i) { assert CountOk(c, i) && PeerStays(c, d, i); }
  }

  /** The server keeps its vote, or moves to a later term, or had given no vote away in this one. */
  ghost predicate PeerStays(c: Cluster, d: Cluster, i: nat)
    requires Shape(c) && Shape(d) && i < |c.peers| == |d.peers|
  {
    var p, q := c.peers[i], d.peers[i];
    && q.currentTerm >= p.currentTerm
    && (q.currentTerm == p.currentTerm ==>
          || !HasGranted(c, i, p.currentTerm)
          || (q.votedFor == p.votedFor && q.status == Follower))
    && (q.status == Candidate ==>
          || (p.status == Candidate && q.currentTerm == p.currentTerm && q.numVoteGathered == p.numVoteGathered && d.counted[i] == c.counted[i])
          || (q.numVoteGathered == 1 && d.counted[i] == {}))
  }

  lemma GrantedIsFollower(c: Cluster, i: nat)
    requires Votes(c) && i < |c.peers| && HasGranted(c, i, c.peers[i].currentTerm)
    ensures c.peers[i].status == Follower && 0 <= c.peers[i].votedFor && c.peers[i].votedFor != i
    ensures Grant(i, c.peers[i].currentTerm, c.peers[i].votedFor) in c.grants
  {
    var g :| g in c.grants && g.voter == i && g.term == c.peers[i].currentTerm;
    assert GrantOk(c, g);
  }

  /** What a vote request does: a vote given for the first time or again, or none and then nothing
      new in this term. */
  lemma VoteCases(p: Peer, me: int, args: VoteArgs)
    requires WellFormed(p) && args.candidateId != me
    ensures var (q, reply) := OnVoteRequest(p, me, args);
            if reply.voteGranted then
              && reply.term == q.currentTerm == args.term >= p.currentTerm
              && q.status == Follower && q.votedFor == args.candidateId
              && (p.currentTerm < args.term || p.votedFor == -1 || p.votedFor == args.candidateId || (p.votedFor == me && p.status == Candidate))
            else
              q == p || (q.currentTerm > p.currentTerm && q.status == Follower)
  {
  }

  lemma VoteKeeps(c: Cluster, m: Message)
    requires Votes(c) && m in c.net && m.VoteMessage? && m.to < |c.peers|
    ensures Votes(OnVote(c, m))
  {
    var d := OnVote(c, m);
    var (p, reply) := OnVoteRequest(c.peers[m.to], m.to, m.request);
    assert NoteOk(c, m);
    VoteCases(c.peers[m.to], m.to, m.request);
    hide OnVoteRequest;
    if !reply.voteGranted {
      forall i | 0 <= i < |c.peers| ensures PeerStays(c, d, i) { StaysItself(c, i); }
      NoVotes(c, d);
    } else {
      NewGrant(c, d, m.to, Grant(m.to, reply.term, m.request.candidateId));
    }
  }

  lemma StaysItself(c: Cluster, i: nat)
    requires Votes(c) && i < |c.peers|
    ensures PeerStays(c, c, i)
  {
    if HasGranted(c, i, c.peers[i].currentTerm) {
      GrantedIsFollower(c, i);
    }
  }

  /** A vote is granted by a server that has not voted in the term, or has voted just so. */
  lemma NewGrant(c: Cluster, d: Cluster, i: nat, g: Grant)
    requires Votes(c) && i < |c.peers| && |d.peers| == |c.peers| && Shape(d)
    requires g.voter == i && 0 <= g.candidate < |c.peers| && g.candidate != i && g.term >= c.peers[i].currentTerm
    requires d.peers == c.peers[i := d.peers[i]] && d.counted == c.counted && d.wins == c.wins && d.grants == c.grants + {g}
    requires d.peers[i].status == Follower && d.peers[i].votedFor == g.candidate && d.peers[i].currentTerm == g.term
    requires c.peers[i].currentTerm < g.term || c.peers[i].votedFor == -1 || c.peers[i].votedFor == g.candidate
               || (c.peers[i].votedFor == i && c.peers[i].status == Candidate)
    requires forall m :: m in d.net ==> m in c.net || NoteOk(d, m)
    ensures Votes(d)
  {
    if h :| h in c.grants && h.voter == i && h.term == g.term {
      assert GrantOk(c, h);
      GrantedIsFollower(c, i);
    }
    forall h | h in d.grants ensures GrantOk(d, h) {
      if h in c.grants { assert GrantOk(c, h); }
    }
    forall w | w in d.wins ensures WinnerOk(d, w) { assert WinnerOk(c, w); }
    forall m | m in d.net ensures NoteOk(d, m) {
      if m in c.net { assert NoteOk(c, m); }
    }
    forall j | 0 <= j < |d.peers| ensures CountOk(d, j) { assert CountOk(c, j); }
  }

  lemma HearVoteKeepsVotes(c: Cluster, m: Message)
    requires Votes(c) && m in c.net && m.VoteAnswer? && m.to < |c.peers| && !OnHearVote(c, m).recounted
    ensures Votes(OnHearVote(c, m))
  {
    var d := OnHearVote(c, m);
    assert NoteOk(c, m);
    forall w | w in d.wins ensures WinnerOk(d, w) {
      if w in c.wins { assert WinnerOk(c, w); } else { HearVoteWins(c, m, w); }
    }
    hide WinnerOk, WellFormed;
    forall j | 0 <= j < |d.peers| ensures CountOk(d, j) {
      assert CountOk(c, j);
    }
    forall g | g in d.grants ensures GrantOk(d, g) { assert GrantOk(c, g); }
    forall m | m in d.net ensures NoteOk(d, m) { assert NoteOk(c, m); }
  }

  /** The votes a candidate has once it has heard a reply. */
  function VotersAfter(c: Cluster, m: Message): set<nat>
    requires Shape(c) && m.VoteAnswer? && m.to < |c.peers|
  {
    c.counted[m.to] + if CountsVote(c.peers[m.to], m.voteReply) then {m.from} else {}
  }

  /** What stands in the record of a win, and that it was won with enough votes. */
  lemma WinRecorded(c: Cluster, m: Message, w: Win)
    requires Shape(c) && m.VoteAnswer? && m.to < |c.peers|
    requires w in OnHearVote(c, m).wins && w !in c.wins
    ensures var d, p := OnHearVote(c, m), c.peers[m.to];
            && w == Win(p.currentTerm, m.to, VotersAfter(c, m) + {m.to})
            && d.grants == c.grants && |d.peers| == |c.peers| && d.peers[m.to].currentTerm == p.currentTerm + 1
            && p.status == Candidate
            && 2 * (p.numVoteGathered + if CountsVote(p, m.voteReply) then 1 else 0) > |c.peers|
            && (CountsVote(p, m.voteReply) && m.from in c.counted[m.to] ==> d.recounted)
  {
    hide WellFormed;
  }

  lemma HearVoteWins(c: Cluster, m: Message, w: Win)
    requires Votes(c) && m in c.net && m.VoteAnswer? && m.to < |c.peers| && !OnHearVote(c, m).recounted
    requires w in OnHearVote(c, m).wins && w !in c.wins
    ensures WinnerOk(OnHearVote(c, m), w)
  {
    hide OnHearVote, OnVoteReply, GrantsUnique, WinnerOk, WellFormed;
    var i, p := m.to, c.peers[m.to];
    WinRecorded(c, m, w);
    assert NoteOk(c, m) && CountOk(c, i);
    forall g | g in c.grants && g.voter == i ensures g.term != p.currentTerm { assert GrantOk(c, g); }
    WinnerCount(VotersAfter(c, m), i, w.quorum);
    IsWinner(OnHearVote(c, m), w);
  }

  lemma IsWinner(c: Cluster, w: Win)
    requires w.server < |c.peers| && w.term < c.peers[w.server].currentTerm
    requires w.server in w.quorum && 2 * |w.quorum| > |c.peers|
    requires forall j :: j in w.quorum ==> j < |c.peers|
    requires forall j :: j in w.quorum && j != w.server ==> Grant(j, w.term, w.server) in c.grants
    requires forall g :: g in c.grants && g.voter == w.server ==> g.term != w.term
    ensures WinnerOk(c, w)
  {
  }

  lemma WinnerCount(voters: set<nat>, i: nat, quorum: set<nat>)
    requires i !in voters && quorum == voters + {i}
    ensures |quorum| == |voters| + 1
  {
  }

  lemma DeliverKeepsVotes(c: Cluster, m: Message)
    requires Votes(c) && m.AppendMessage? && m.to < |c.peers| && !OnDeliver(c, m).disturbed
    ensures Votes(OnDeliver(c, m))
  {
    var d := OnDeliver(c, m);
    BecomesFollower(c.peers[m.to], m.args);
    AppendTerm(c.peers[m.to], m.args);
    hide OnAppend;
    forall i | 0 <= i < |c.peers| ensures PeerStays(c, d, i) { StaysItself(c, i); }
    NoVotes(c, d);
  }

  lemma AppendTerm(p: Peer, args: AppendArgs)
    requires WellFormed(p)
    ensures var q := OnAppend(p, args).0;
            q == p || q.currentTerm == args.term
    ensures OnAppend(p, args).1.None? ==> OnAppend(p, args).0.currentTerm == args.term
  {
  }

  lemma NextKeepsVotes(c: Cluster, a: Action)
    requires Votes(c) && Next(c, a).Some? && !Next(c, a).value.recounted && !Next(c, a).value.disturbed
    ensures Votes(Next(c, a).value)
  {
    NextShape(c, a);
    match a
    case Vote(m) => VoteKeeps(c, m);
    case HearVote(m) => HearVoteKeepsVotes(c, m);
    case Append(m) => DeliverKeepsVotes(c, m);
    case _ => QuietKeepsVotes(c, a);
  }

  lemma QuietKeepsVotes(c: Cluster, a: Action)
    requires Votes(c) && Next(c, a).Some? && !a.Vote? && !a.HearVote? && !a.Append?
    ensures Votes(Next(c, a).value)
  {
    NextShape(c, a);
    var d := Next(c, a).value;
    hide HasGranted, WellFormed;
    forall i | 0 <= i < |c.peers| ensures PeerStays(c, d, i) { StaysItself(c, i); }
    NoVotes(c, d);
  }

  /** In every run: if no candidate counts one server's vote twice, and no append of its own term
      reaches a server after it has granted a vote in it, then no term has two winners. */
  lemma {:induction false} ElectionSafety(n: nat, actions: seq<Action>)
    requires Execute(Start(n), actions).Some?
    requires var c := Execute(Start(n), actions).value; !c.recounted && !c.disturbed
    ensures Votes(Execute(Start(n), actions).value) && OneWinnerPerTerm(Execute(Start(n), actions).value)
  {
    if actions != [] {
      var before, a := Execute(Start(n), actions[..|actions| - 1]).value, actions[|actions| - 1];
      NextShape(before, a);
      ElectionSafety(n, actions[..|actions| - 1]);
      NextKeepsVotes(before, a);
    }
    WinnersMeet(Execute(Start(n), actions).value);
  }

  /** A run only adds to what has happened in its beginnings. */
  lemma {:induction false} BeginningOfRun(n: nat, actions: seq<Action>, k: nat)
    requires Execute(Start(n), actions).Some? && k <= |actions|
    ensures Execute(Start(n), actions[..k]).Some?
    ensures var c, d := Execute(Start(n), actions[..k]).value, Execute(Start(n), actions).value;
            && |c.peers| == |d.peers| && c.wins <= d.wins
            && (c.recounted ==> d.recounted) && (c.disturbed ==> d.disturbed)
    decreases |actions|
  {
    if k == |actions| {
      assert actions[..k] == actions;
    } else {
      var front := actions[..|actions| - 1];
      BeginningOfRun(n, front, k);
      assert front[..k] == actions[..k];
      NextShape(Execute(Start(n), front).value, actions[|actions| - 1]);
    }
  }

  /** Two servers that lead in the same term, one at some moment of a run and the other at its end,
      are one. */
  lemma {:induction false} OneLeaderPerTerm(n: nat, actions: seq<Action>, k: nat, i: nat, j: nat)
    requires Execute(Start(n), actions).Some? && k <= |actions| && Execute(Start(n), actions[..k]).Some?
    requires var c, d := Execute(Start(n), actions[..k]).value, Execute(Start(n), actions).value;
             && !d.recounted && !d.disturbed && i < |c.peers| && j < |d.peers|
             && c.peers[i].status == Leader && d.peers[j].status == Leader && c.peers[i].currentTerm == d.peers[j].currentTerm
    ensures i == j
  {
    var c, d := Execute(Start(n), actions[..k]).value, Execute(Start(n), actions).value;
    BeginningOfRun(n, actions, k);
    ElectionSafety(n, actions[..k]);
    ElectionSafety(n, actions);
    RaftLog.EveryRunKeeps(n, actions[..k]);
    RaftLog.EveryRunKeeps(n, actions);
    hide Execute, Votes;
    assert PeerOk(c, i) && PeerOk(d, j);
    LedStays(c, d, i, c.peers[i].currentTerm);
    SameLeader(d, i, j, c.peers[i].currentTerm);
  }

  /** Under the same two conditions logs match, with nothing assumed about leaders. */
  lemma {:induction false} ElectedLogsMatch(n: nat, actions: seq<Action>, i: nat, j: nat, k: nat)
    requires Execute(Start(n), actions).Some?
    requires var c := Execute(Start(n), actions).value;
             && !c.recounted && !c.disturbed && i < |c.peers| && j < |c.peers|
             && k < |c.peers[i].log| && k < |c.peers[j].log| && c.peers[i].log[k].term == c.peers[j].log[k].term
    ensures var c := Execute(Start(n), actions).value;
            c.peers[i].log[..k + 1] == c.peers[j].log[..k + 1]
  {
    ElectionSafety(n, actions);
    LogMatching(n, actions, i, j, k);
  }

  // ----- Without the conditions

  lemma {:induction false} OneMoreAction(c: Cluster, actions: seq<Action>, a: Action)
    requires Shape(c) && Execute(c, actions).Some? && Next(Execute(c, actions).value, a).Some?
    ensures Execute(c, actions + [a]) == Next(Execute(c, actions).value, a)
  {
    assert (actions + [a])[..|actions|] == actions;
  }

  /** Nothing in the log but the filler. */
  predicate Blank(p: Peer) {
    p.log == [Filler()] && p.compacted == 0 && p.commitIndex == -1
  }

  /** A run of five servers that has come this far. */
  ghost predicate Reached(actions: seq<Action>, c: Cluster) {
    Execute(Start(5), actions) == Some(c) && |c.peers| == 5 && Shape(c) && forall k :: 0 <= k < 5 ==> Blank(c.peers[k])
  }

  lemma Goes(before: seq<Action>, c: Cluster, a: Action, d: Cluster) returns (actions: seq<Action>)
    requires Reached(before, c) && Next(c, a) == Some(d) && forall k :: 0 <= k < |d.peers| ==> Blank(d.peers[k])
    ensures Reached(actions, d)
  {
    NextShape(c, a);
    OneMoreAction(Start(5), before, a);
    actions := before + [a];
  }

  lemma Stands(before: seq<Action>, c: Cluster, i: nat) returns (actions: seq<Action>, d: Cluster)
    requires Reached(before, c) && i < 5 && c.peers[i].status != Leader
    ensures Reached(actions, d) && d == OnTimeout(c, i)
  {
    d := OnTimeout(c, i);
    actions := Goes(before, c, Timeout(i), d);
  }

  /** A candidate hears of a vote for it in its term. */
  lemma HearsVote(before: seq<Action>, c: Cluster, i: nat, j: nat) returns (actions: seq<Action>, d: Cluster)
    requires Reached(before, c) && i < 5 && c.peers[i].status == Candidate
    requires VoteAnswer(j, i, VoteReply(c.peers[i].currentTerm, true)) in c.net
    ensures Reached(actions, d) && c.wins <= d.wins && c.net == d.net && d.disturbed == c.disturbed
    ensures j !in c.counted[i] ==> d.recounted == c.recounted
    ensures var p := c.peers[i].(numVoteGathered := c.peers[i].numVoteGathered + 1);
            && d.peers == c.peers[i := CheckElection(p, 5)]
            && d.counted == c.counted[i := c.counted[i] + {j}]
            && (p.numVoteGathered > 2 ==> Win(p.currentTerm, i, c.counted[i] + {j} + {i}) in d.wins)
  {
    var answer := VoteAnswer(j, i, VoteReply(c.peers[i].currentTerm, true));
    d := OnHearVote(c, answer);
    actions := Goes(before, c, HearVote(answer), d);
  }

  /** A candidate asks a server that has not voted in the term, or has voted for it, and counts the vote. */
  lemma GetsVote(before: seq<Action>, c: Cluster, i: nat, j: nat) returns (actions: seq<Action>, d: Cluster)
    requires Reached(before, c) && i < 5 && j < 5 && i != j && c.peers[i].status == Candidate
    requires || c.peers[j].currentTerm < c.peers[i].currentTerm
             || (c.peers[j].currentTerm == c.peers[i].currentTerm && c.peers[j].votedFor == -1)
             || (c.peers[j].currentTerm == c.peers[i].currentTerm && c.peers[j].votedFor == i)
    ensures Reached(actions, d) && c.wins <= d.wins && c.net <= d.net && d.disturbed == c.disturbed
    ensures j !in c.counted[i] ==> d.recounted == c.recounted
    ensures var p := c.peers[i].(numVoteGathered := c.peers[i].numVoteGathered + 1);
            && d.peers == c.peers[j := BecomeFollower(c.peers[j], p.currentTerm, i)][i := CheckElection(p, 5)]
            && d.counted == c.counted[i := c.counted[i] + {j}]
            && (p.numVoteGathered > 2 ==> Win(p.currentTerm, i, c.counted[i] + {j} + {i}) in d.wins)
  {
    var term := c.peers[i].currentTerm;
    var request := VoteRequest(c.peers[i], i);
    var ask, answer := VoteMessage(j, request), VoteAnswer(j, i, VoteReply(term, true));
    var c1 := Send(c, ask);
    var a1 := Goes(before, c, AskVote(i, j), c1);
    assert OnVoteRequest(c1.peers[j], j, request) == (BecomeFollower(c.peers[j], term, i), VoteReply(term, true));
    var c2 := OnVote(c1, ask);
    var a2 := Goes(a1, c1, Vote(ask), c2);
    actions, d := HearsVote(a2, c2, i, j);
  }

  /** A server stands twice. In the second term it asks one other server, and so does a request left
      over from the first election, which reads the term only when it is sent. Both are granted, and
      the one vote is counted twice. */
  lemma WinsCountingTwice(before: seq<Action>, c: Cluster, i: nat, j: nat) returns (actions: seq<Action>, d: Cluster)
    requires Reached(before, c) && i < 5 && j < 5 && i != j && c.peers[i] == NewPeer() && c.peers[j] == NewPeer()
    ensures Reached(actions, d) && d.disturbed == c.disturbed && c.wins <= d.wins && Win(2, i, {i, j}) in d.wins
    ensures forall k :: 0 <= k < 5 && k != i && k != j ==> d.peers[k] == c.peers[k]
  {
    var c1: Cluster, c2: Cluster, c3: Cluster;
    actions, c1 := Stands(before, c, i);
    actions, c2 := Stands(actions, c1, i);
    actions, c3 := GetsVote(actions, c2, i, j);
    assert c3.counted[i] == {j} && c3.peers[i] == c2.peers[i].(numVoteGathered := 2);
    actions, d := GetsVote(actions, c3, i, j);
    assert {j} + {j} + {i} == {i, j};
  }

  /** Counting one server's vote twice is enough to elect two servers in one term. */
  lemma TwoWinners() returns (actions: seq<Action>)
    ensures Execute(Start(5), actions).Some?
    ensures var c := Execute(Start(5), actions).value; !c.disturbed && !OneWinnerPerTerm(c)
  {
    var c := Start(5);
    actions, c := WinsCountingTwice([], c, 0, 1);
    actions, c := WinsCountingTwice(actions, c, 2, 3);
    assert Win(2, 0, {0, 1}) in c.wins && Win(2, 2, {2, 3}) in c.wins;
  }

  /** An append of its own term makes a follower forget its vote. */
  lemma Forgets(before: seq<Action>, c: Cluster, j: nat, m: Message) returns (actions: seq<Action>, d: Cluster)
    requires Reached(before, c) && j < 5 && m in c.net
    requires m.AppendMessage? && m.to == j && m.args == AppendArgs(c.peers[j].currentTerm, 0, 0, -1, [], -1)
    ensures Reached(actions, d) && d.peers == c.peers[j := BecomeFollower(c.peers[j], c.peers[j].currentTerm, -1)]
    ensures d.wins == c.wins && d.counted == c.counted && c.net <= d.net && d.recounted == c.recounted
  {
    d := OnDeliver(c, m);
    assert OnAppend(c.peers[j], m.args).0 == BecomeFollower(c.peers[j], c.peers[j].currentTerm, -1);
    actions := Goes(before, c, Append(m), d);
  }

  lemma Sends(before: seq<Action>, c: Cluster, to: nat) returns (actions: seq<Action>, d: Cluster, m: Message)
    requires Reached(before, c) && 0 < to < 5 && c.peers[0].status == Leader
    ensures Reached(actions, d) && d == Send(c, m)
    ensures m == AppendMessage(to, AppendArgs(c.peers[0].currentTerm, 0, 0, -1, [], -1), [Filler()], -1)
  {
    m := AppendMessage(to, AppendArgs(c.peers[0].currentTerm, 0, 0, -1, [], -1), [Filler()], -1);
    d := Send(c, m);
    assert Blank(c.peers[0]);
    assert c.peers[0].log[1..] == [];
    assert AppendRequest(c.peers[0], 0, 1) == Some(m.args);
    actions := Goes(before, c, SendAppend(0, to, 1), d);
  }

  /** A new candidate gets two votes and wins. */
  lemma Elects(before: seq<Action>, c: Cluster, i: nat, j: nat, k: nat) returns (actions: seq<Action>, d: Cluster)
    requires Reached(before, c) && i < 5 && j < 5 && k < 5 && i != j && i != k && j != k
    requires c.peers[i].status == Candidate && c.counted[i] == {} && c.peers[i].numVoteGathered == 1
    requires forall v :: v == j || v == k ==>
               || c.peers[v].currentTerm < c.peers[i].currentTerm
               || (c.peers[v].currentTerm == c.peers[i].currentTerm && c.peers[v].votedFor == -1)
    ensures d.recounted == c.recounted
    ensures Reached(actions, d) && c.net <= d.net && c.wins <= d.wins && Win(c.peers[i].currentTerm, i, {i, j, k}) in d.wins
    ensures d.peers[i] == BecomeLeader(c.peers[i])
    ensures d.peers[j] == BecomeFollower(c.peers[j], c.peers[i].currentTerm, i)
    ensures d.peers[k] == BecomeFollower(c.peers[k], c.peers[i].currentTerm, i)
    ensures forall v :: 0 <= v < 5 && v != i && v != j && v != k ==> d.peers[v] == c.peers[v]
  {
    var c1: Cluster;
    actions, c1 := GetsVote(before, c, i, j);
    assert |c1.counted| == 5 && c1.counted[i] == {j};
    actions, d := GetsVote(actions, c1, i, k);
    assert {j} + {k} + {i} == {i, j, k};
  }

  /** Server 0 leads in term 2 and has sent appends; server 3 then wins term 2 with the votes of 1 and 4. */
  lemma FirstWinner() returns (actions: seq<Action>, c: Cluster, m1: Message, m4: Message)
    ensures !c.recounted && Reached(actions, c) && Win(2, 3, {3, 1, 4}) in c.wins && m1 in c.net && m4 in c.net
    ensures m1 == AppendMessage(1, AppendArgs(2, 0, 0, -1, [], -1), [Filler()], -1)
    ensures m4 == AppendMessage(4, AppendArgs(2, 0, 0, -1, [], -1), [Filler()], -1)
    ensures c.peers[1].currentTerm == 2 && c.peers[4].currentTerm == 2
    ensures c.peers[2].currentTerm == 1 && c.peers[2].status == Follower
  {
    c := Start(5);
    actions, c := Stands([], c, 0);
    actions, c := Elects(actions, c, 0, 1, 2);
    assert c.peers[1].currentTerm == 1 && c.peers[2].currentTerm == 1 && c.peers[2].status == Follower
        && c.peers[3] == NewPeer() && c.peers[4] == NewPeer() && c.peers[0].status == Leader && c.peers[0].currentTerm == 2;
    actions, c, m1 := Sends(actions, c, 1);
    actions, c, m4 := Sends(actions, c, 4);
    actions, c := Stands(actions, c, 3);
    actions, c := Stands(actions, c, 3);
    actions, c := Elects(actions, c, 3, 1, 4);
  }

  /** Forgotten votes are enough too: with every vote counted once, two servers win term 2. */
  lemma TwoWinnersAgain() returns (actions: seq<Action>)
    ensures Execute(Start(5), actions).Some?
    ensures var c := Execute(Start(5), actions).value; !c.recounted && !OneWinnerPerTerm(c)
  {
    var c: Cluster, m1: Message, m4: Message;
    actions, c, m1, m4 := FirstWinner();
    actions, c := Forgets(actions, c, 1, m1);
    actions, c := Forgets(actions, c, 4, m4);
    actions, c := Stands(actions, c, 2);
    actions, c := Elects(actions, c, 2, 1, 4);
    assert Win(2, 3, {3, 1, 4}) in c.wins && Win(2, 2, {2, 1, 4}) in c.wins;
  }
}
