/** Whose log wins elections, as in section 5.4.1 of "In Search of an Understandable Consensus Algorithm
    (Extended Version)": a vote never goes to a log behind the voter's, and so no winner's log is behind
    those of the servers that elected it, though requests are filled in only when they are sent. */
module RaftBallots {
  import opened Linearizability
  import opened RaftPeer
  import opened RaftCluster
  import opened RaftElection
  import RaftLog

  /** A log that ends with this term and index is not behind the other: it ends in a later term, or in the
      same and is no shorter. */
  predicate NotBehind(lastTerm: int, lastIndex: int, log: seq<LogEntity>)
    requires log != []
  {
    lastTerm > log[|log| - 1].term || (lastTerm == log[|log| - 1].term && lastIndex >= |log| - 1)
  }

  ghost predicate BallotOk(c: Cluster, b: Ballot) {
    && b.log != [] && NotBehind(b.request.lastLogTerm, b.request.lastLogIndex, b.log)
    && RequestOk(c, b.request)
  }

  /** As long as a server stands in the term of its request, its log is the one the request speaks of. */
  ghost predicate RequestOk(c: Cluster, r: VoteArgs) {
    && 0 <= r.candidateId < |c.peers|
    && var p := c.peers[r.candidateId];
       && r.term <= p.currentTerm
       && (p.status == Candidate && r.term == p.currentTerm ==>
             p.log != [] && r.lastLogIndex == |p.log| - 1 && r.lastLogTerm == p.log[|p.log| - 1].term)
  }

  ghost predicate Cast(c: Cluster, voter: nat, term: int, candidate: nat) {
    exists b :: b in c.ballots && b.voter == voter && b.request.term == term && b.request.candidateId == candidate
  }

  ghost predicate LetterOk(c: Cluster, m: Message) {
    match m
    case VoteMessage(_, request) => RequestOk(c, request)
    case VoteAnswer(from, to, reply) => reply.voteGranted ==> Cast(c, from, reply.term, to)
    case _ => true
  }

  ghost predicate VotersOk(c: Cluster, i: nat)
    requires Shape(c) && i < |c.peers|
  {
    c.peers[i].status == Candidate ==> forall j :: j in c.counted[i] ==> Cast(c, j, c.peers[i].currentTerm, i)
  }

  ghost predicate Ballots(c: Cluster) {
    && Shape(c)
    && (forall b :: b in c.ballots ==> BallotOk(c, b))
    && (forall m :: m in c.net ==> LetterOk(c, m))
    && (forall i :: 0 <= i < |c.peers| ==> VotersOk(c, i))
  }

  /** A server that stands now stood before, with the same log, or stands for the first time in its term. */
  ghost predicate StandsOn(c: Cluster, d: Cluster, i: nat)
    requires i < |c.peers| == |d.peers|
  {
    var p, q := c.peers[i], d.peers[i];
    && q.currentTerm >= p.currentTerm
    && (q.status == Candidate ==>
          || (p.status == Candidate && q.currentTerm == p.currentTerm && q.log == p.log)
          || q.currentTerm > p.currentTerm)
  }

  lemma RequestStays(c: Cluster, d: Cluster, r: VoteArgs)
    requires RequestOk(c, r) && |c.peers| == |d.peers| && forall i :: 0 <= i < |d.peers| ==> StandsOn(c, d, i)
    ensures RequestOk(d, r)
  {
    assert StandsOn(c, d, r.candidateId);
  }

  lemma CastStays(c: Cluster, d: Cluster, voter: nat, term: int, candidate: nat)
    requires Cast(c, voter, term, candidate) && c.ballots <= d.ballots
    ensures Cast(d, voter, term, candidate)
  {
  }

  lemma BallotsStay(c: Cluster, d: Cluster)
    requires Ballots(c) && Shape(d) && |d.peers| == |c.peers| && c.ballots <= d.ballots
    requires forall i :: 0 <= i < |d.peers| ==> StandsOn(c, d, i)
    requires forall b :: b in d.ballots ==> b in c.ballots || BallotOk(d, b)
    requires forall m :: m in d.net ==> m in c.net || LetterOk(d, m)
    requires forall i :: 0 <= i < |d.peers| ==>
               || (d.peers[i].currentTerm == c.peers[i].currentTerm && d.counted[i] == c.counted[i])
               || VotersOk(d, i)
    ensures Ballots(d)
  {
    hide NotBehind, WellFormed;
    forall b | b in d.ballots ensures BallotOk(d, b) {
      if b in c.ballots { RequestStays(c, d, b.request); }
    }
    hide RequestOk;
    forall m | m in d.net ensures LetterOk(d, m) {
      if m in c.net {
        assert LetterOk(c, m);
        if m.VoteMessage? { RequestStays(c, d, m.request); }
        if m.VoteAnswer? && m.voteReply.voteGranted { CastStays(c, d, m.from, m.voteReply.term, m.to); }
      }
    }
    forall i | 0 <= i < |d.peers| ensures VotersOk(d, i) {
      assert VotersOk(c, i) && StandsOn(c, d, i);
      hide Cast;
      if d.peers[i].currentTerm == c.peers[i].currentTerm && d.counted[i] == c.counted[i] && d.peers[i].status == Candidate {
        forall j | j in d.counted[i] ensures Cast(d, j, d.peers[i].currentTerm, i) {
          CastStays(c, d, j, c.peers[i].currentTerm, i);
        }
      }
    }
  }

  lemma VoteKeepsBallots(c: Cluster, m: Message)
    requires Ballots(c) && m in c.net && m.VoteMessage? && m.to < |c.peers|
    ensures Ballots(OnVote(c, m))
  {
    var d := OnVote(c, m);
    var (q, reply) := OnVoteRequest(c.peers[m.to], m.to, m.request);
    VoteEarned(c.peers[m.to], m.to, m.request);
    assert LetterOk(c, m);
    hide OnVoteRequest, Cast;
    forall i | 0 <= i < |d.peers| ensures StandsOn(c, d, i) {}
    RequestStays(c, d, m.request);
    if reply.voteGranted {
      var b := Ballot(m.to, m.request, c.peers[m.to].log);
      assert b in d.ballots;
      CastBy(d, b);
    }
    hide RequestOk, NotBehind;
    BallotsStay(c, d);
  }

  lemma CastBy(c: Cluster, b: Ballot)
    requires b in c.ballots && b.request.candidateId >= 0
    ensures Cast(c, b.voter, b.request.term, b.request.candidateId)
  {
  }

  lemma HearVoteKeepsBallots(c: Cluster, m: Message)
    requires Ballots(c) && m in c.net && m.VoteAnswer? && m.to < |c.peers|
    ensures Ballots(OnHearVote(c, m))
  {
    var d := OnHearVote(c, m);
    OfficeEarned(c.peers[m.to], |c.peers|, m.voteReply);
    assert LetterOk(c, m) && VotersOk(c, m.to);
    hide OnVoteReply, Cast, RequestOk, NotBehind, WellFormed;
    forall i | 0 <= i < |d.peers| ensures StandsOn(c, d, i) {}
    if d.peers[m.to].status == Candidate {
      forall j | j in d.counted[m.to] ensures Cast(d, j, d.peers[m.to].currentTerm, m.to) {
        CastStays(c, d, j, d.peers[m.to].currentTerm, m.to);
      }
    }
    BallotsStay(c, d);
  }

  lemma DeliverKeepsBallots(c: Cluster, m: Message)
    requires Ballots(c) && m.AppendMessage? && m.to < |c.peers|
    ensures Ballots(OnDeliver(c, m))
  {
    var d := OnDeliver(c, m);
    RaftLog.BecomesFollower(c.peers[m.to], m.args);
    hide OnAppend, Cast, RequestOk, NotBehind, HasGranted;
    forall i | 0 <= i < |d.peers| ensures StandsOn(c, d, i) {}
    BallotsStay(c, d);
  }

  lemma StandingKeepsBallots(c: Cluster, a: Action)
    requires Ballots(c) && Next(c, a).Some? && (a.Timeout? || a.AskVote?)
    ensures Ballots(Next(c, a).value)
  {
    NextShape(c, a);
    var d := Next(c, a).value;
    hide Cast, NotBehind;
    forall i | 0 <= i < |d.peers| ensures StandsOn(c, d, i) {}
    BallotsStay(c, d);
  }

  lemma OthersKeepBallots(c: Cluster, a: Action)
    requires Ballots(c) && Next(c, a).Some? && !a.Vote? && !a.HearVote? && !a.Append? && !a.Timeout? && !a.AskVote?
    ensures Ballots(Next(c, a).value)
  {
    NextShape(c, a);
    var d := Next(c, a).value;
    hide Cast, NotBehind, RequestOk, WellFormed, AppendRequest;
    forall i | 0 <= i < |d.peers| ensures StandsOn(c, d, i) {}
    hide OnSnapshot, OnAppendReply;
    BallotsStay(c, d);
  }

  lemma NextKeepsBallots(c: Cluster, a: Action)
    requires Ballots(c) && Next(c, a).Some?
    ensures Ballots(Next(c, a).value)
  {
    match a
    case Vote(m) => VoteKeepsBallots(c, m);
    case HearVote(m) => HearVoteKeepsBallots(c, m);
    case Append(m) => DeliverKeepsBallots(c, m);
    case Timeout(_) => StandingKeepsBallots(c, a);
    case AskVote(_, _) => StandingKeepsBallots(c, a);
    case _ => OthersKeepBallots(c, a);
  }

  lemma {:induction false} EveryRunKeepsBallots(n: nat, actions: seq<Action>)
    requires Execute(Start(n), actions).Some?
    ensures Ballots(Execute(Start(n), actions).value)
  {
    if actions != [] {
      var front := actions[..|actions| - 1];
      EveryRunKeepsBallots(n, front);
      NextKeepsBallots(Execute(Start(n), front).value, actions[|actions| - 1]);
    }
  }

  /** In every run every vote ever granted went to a request whose last entry was not behind the
      voter's log when it voted. */
  lemma VotesNotBehind(n: nat, actions: seq<Action>, b: Ballot)
    requires Execute(Start(n), actions).Some? && b in Execute(Start(n), actions).value.ballots
    ensures b.log != []
    ensures var last := b.log[|b.log| - 1].term;
            b.request.lastLogTerm > last || (b.request.lastLogTerm == last && b.request.lastLogIndex >= |b.log| - 1)
  {
    EveryRunKeepsBallots(n, actions);
    assert BallotOk(Execute(Start(n), actions).value, b);
  }

  /** The voter gave the server its vote in this term, with a log then that the given log is not behind. */
  ghost predicate Backed(c: Cluster, voter: nat, term: int, server: nat, log: seq<LogEntity>) {
    log != [] && exists b :: b in c.ballots && b.voter == voter && b.request.term == term && b.request.candidateId == server
                         && b.log != [] && NotBehind(log[|log| - 1].term, |log| - 1, b.log)
  }

  /** The reply makes its server a leader. */
  ghost predicate TakesOffice(c: Cluster, m: Message) {
    && Shape(c) && m in c.net && m.VoteAnswer? && m.to < |c.peers|
    && c.peers[m.to].status != Leader && OnHearVote(c, m).peers[m.to].status == Leader
  }

  lemma OfficeTaken(c: Cluster, m: Message)
    requires TakesOffice(c, m)
    ensures var d, p := OnHearVote(c, m), c.peers[m.to];
            && Next(c, HearVote(m)) == Some(d)
            && p.status == Candidate && d.peers[m.to].currentTerm == p.currentTerm + 1 && d.peers[m.to].log == p.log
            && |d.peers| == |c.peers| && |d.counted| == |c.peers| && d.ballots == c.ballots && d.disturbed == c.disturbed
            && Win(p.currentTerm, m.to, d.counted[m.to] + {m.to}) in d.wins
            && (forall j :: j in d.counted[m.to] ==>
                  j in c.counted[m.to] || (j == m.from && m.voteReply.voteGranted && m.voteReply.term == p.currentTerm))
  {
    OfficeEarned(c.peers[m.to], |c.peers|, m.voteReply);
    hide WellFormed;
  }

  lemma WinnerBacked(c: Cluster, m: Message)
    requires Ballots(c) && TakesOffice(c, m)
    ensures var d := OnHearVote(c, m);
            forall j :: j in d.counted[m.to] ==> Backed(d, j, c.peers[m.to].currentTerm, m.to, d.peers[m.to].log)
  {
    var d, p := OnHearVote(c, m), c.peers[m.to];
    OfficeTaken(c, m);
    assert LetterOk(c, m) && VotersOk(c, m.to);
    hide OnHearVote, TakesOffice, WellFormed;
    forall j | j in d.counted[m.to] ensures Backed(d, j, p.currentTerm, m.to, d.peers[m.to].log) {
      assert Cast(c, j, p.currentTerm, m.to);
      var b :| b in c.ballots && b.voter == j && b.request.term == p.currentTerm && b.request.candidateId == m.to;
      assert BallotOk(c, b);
    }
  }

  /** Whenever a server takes office, in any run, everyone whose vote it counted had a log that the new
      leader's is not behind. */
  lemma WinnerNotBehind(n: nat, actions: seq<Action>, m: Message)
    requires Execute(Start(n), actions).Some? && TakesOffice(Execute(Start(n), actions).value, m)
    ensures var c := Execute(Start(n), actions).value;
            var d := OnHearVote(c, m);
            && Next(c, HearVote(m)) == Some(d) && m.to < |d.counted| == |d.peers|
            && d.peers[m.to].currentTerm == c.peers[m.to].currentTerm + 1
            && forall j :: j in d.counted[m.to] ==> Backed(d, j, c.peers[m.to].currentTerm, m.to, d.peers[m.to].log)
  {
    EveryRunKeepsBallots(n, actions);
    OfficeTaken(Execute(Start(n), actions).value, m);
    WinnerBacked(Execute(Start(n), actions).value, m);
  }

  /** Under the conditions of ElectionSafety these voters and the winner are a majority. */
  lemma ElectedByMajority(n: nat, actions: seq<Action>, m: Message)
    requires Execute(Start(n), actions).Some? && TakesOffice(Execute(Start(n), actions).value, m)
    requires var c := Execute(Start(n), actions).value; !OnHearVote(c, m).recounted && !c.disturbed
    ensures var c := Execute(Start(n), actions).value;
            var d := OnHearVote(c, m);
            var quorum := d.counted[m.to] + {m.to};
            && 2 * |quorum| > |d.peers|
            && forall j :: j in quorum && j != m.to ==> Backed(d, j, c.peers[m.to].currentTerm, m.to, d.peers[m.to].log)
  {
    var c := Execute(Start(n), actions).value;
    WinnerNotBehind(n, actions, m);
    OfficeTaken(c, m);
    OneMoreAction(Start(n), actions, HearVote(m));
    hide OnHearVote, TakesOffice, Backed;
    ElectionSafety(n, actions + [HearVote(m)]);
    MajorityOf(OnHearVote(c, m), Win(c.peers[m.to].currentTerm, m.to, OnHearVote(c, m).counted[m.to] + {m.to}));
  }

  lemma MajorityOf(c: Cluster, w: Win)
    requires Votes(c) && w in c.wins
    ensures 2 * |w.quorum| > |c.peers|
  {
    assert WinnerOk(c, w);
  }
}
