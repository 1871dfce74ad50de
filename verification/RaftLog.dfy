/** Log matching, as in section 5.3 of "In Search of an Understandable Consensus Algorithm (Extended
    Version)", for servers that always send the whole rest of their log. */
module RaftLog {
  import opened RaftPeer
  import opened RaftCluster

  type LeaderLogs = map<int, seq<LogEntity>>

  /** No two servers have won an election in the same term. */
  ghost predicate OneWinnerPerTerm(c: Cluster) {
    forall v, w :: v in c.wins && w in c.wins && v.term == w.term ==> v.server == w.server
  }

  /** Up to each of its entries, the log is what the leader of the entry's term has. */
  ghost predicate Agrees(l: LeaderLogs, log: seq<LogEntity>) {
    forall k :: 0 <= k < |log| ==> EntryAgrees(l, log, k)
  }

  ghost predicate EntryAgrees(l: LeaderLogs, log: seq<LogEntity>, k: nat)
    requires k < |log|
  {
    log[k].term in l && k < |l[log[k].term]| && log[..k + 1] == l[log[k].term][..k + 1]
  }

  ghost predicate Led(c: Cluster, server: nat, term: int) {
    exists w :: w in c.wins && w.server == server && w.term + 1 == term
  }

  ghost predicate PeerOk(c: Cluster, i: nat)
    requires i < |c.peers|
  {
    var p := c.peers[i];
    && Agrees(c.leaderLog, p.log)
    && p.currentTerm >= 0
    && (p.status == Leader ==> p.currentTerm in c.leaderLog && c.leaderLog[p.currentTerm] == p.log && Led(c, i, p.currentTerm))
  }

  ghost predicate TermOk(c: Cluster, t: int)
    requires t in c.leaderLog
  {
    Agrees(c.leaderLog, c.leaderLog[t]) && (t == -1 || exists i :: Led(c, i, t))
  }

  ghost predicate WinOk(c: Cluster, w: Win) {
    w.term >= 0 && w.server < |c.peers| && c.peers[w.server].currentTerm > w.term
  }

  /** An append on its way carries the rest of what its leader had after the entry it names. */
  ghost predicate MessageOk(c: Cluster, m: Message) {
    m.AppendMessage? ==>
      && m.args.term in c.leaderLog
      && m.sent <= c.leaderLog[m.args.term]
      && -1 <= m.args.prevLogIndex < |m.sent|
      && m.sent == m.sent[..m.args.prevLogIndex + 1] + m.args.entries
      && (m.args.prevLogIndex >= 0 ==> m.sent[m.args.prevLogIndex].term == m.args.prevLogTerm)
  }

  ghost predicate Inv(c: Cluster) {
    && Shape(c)
    && (forall i :: 0 <= i < |c.peers| ==> PeerOk(c, i))
    && (forall t :: t in c.leaderLog ==> TermOk(c, t))
    && (forall w :: w in c.wins ==> WinOk(c, w))
    && (forall m :: m in c.net ==> MessageOk(c, m))
  }

  ghost predicate Extends(l: LeaderLogs, k: LeaderLogs) {
    forall t :: t in l ==> t in k && l[t] <= k[t]
  }

  lemma AgreesExtended(l: LeaderLogs, k: LeaderLogs, log: seq<LogEntity>)
    requires Agrees(l, log) && Extends(l, k)
    ensures Agrees(k, log)
  {
    forall i | 0 <= i < |log| ensures EntryAgrees(k, log, i) {
      assert EntryAgrees(l, log, i);
      var t := log[i].term;
      assert l[t][..i + 1] == k[t][..i + 1];
    }
  }

  lemma AgreesPrefix(l: LeaderLogs, log: seq<LogEntity>, part: seq<LogEntity>)
    requires Agrees(l, log) && part <= log
    ensures Agrees(l, part)
  {
    forall i | 0 <= i < |part| ensures EntryAgrees(l, part, i) {
      assert EntryAgrees(l, log, i);
      assert part[..i + 1] == log[..i + 1];
    }
  }

  /** Logs that agree with the leaders agree with each other. */
  lemma SameTermSamePrefix(l: LeaderLogs, a: seq<LogEntity>, b: seq<LogEntity>, k: nat)
    requires Agrees(l, a) && Agrees(l, b) && k < |a| && k < |b| && a[k].term == b[k].term
    ensures a[..k + 1] == b[..k + 1]
  {
    assert EntryAgrees(l, a, k) && EntryAgrees(l, b, k);
  }

  /** Nothing about the leaders changes: no new one, and none of their logs. */
  lemma LeadersUnchanged(c: Cluster, d: Cluster)
    requires Inv(c) && Shape(d) && |d.peers| == |c.peers| && d.leaderLog == c.leaderLog && d.wins == c.wins
    requires forall i :: 0 <= i < |d.peers| ==> d.peers[i].currentTerm >= c.peers[i].currentTerm && Agrees(c.leaderLog, d.peers[i].log)
    requires forall i :: 0 <= i < |d.peers| && d.peers[i].status == Leader ==>
               c.peers[i].status == Leader && d.peers[i].currentTerm == c.peers[i].currentTerm && d.peers[i].log == c.peers[i].log
    requires forall m :: m in d.net ==> m in c.net || MessageOk(c, m)
    ensures Inv(d)
  {
    hide Agrees, Shape;
    forall i | 0 <= i < |d.peers| ensures PeerOk(d, i) {
      assert PeerOk(c, i);
      if d.peers[i].status == Leader { LedStays(c, d, i, d.peers[i].currentTerm); }
    }
    forall t | t in d.leaderLog ensures TermOk(d, t) {
      assert TermOk(c, t);
      if i :| Led(c, i, t) { LedStays(c, d, i, t); }
    }
    forall w | w in d.wins ensures WinOk(d, w) { assert WinOk(c, w); }
    forall m | m in d.net ensures MessageOk(d, m) { assert MessageOk(c, m); }
  }

  lemma LedStays(c: Cluster, d: Cluster, i: nat, t: int)
    requires c.wins <= d.wins && Led(c, i, t)
    ensures Led(d, i, t)
  {
    var w :| w in c.wins && w.server == i && w.term + 1 == t;
    assert w in d.wins;
  }

  /** The log of one leader has grown, or a new one has taken office with its log. */
  lemma LeaderGrows(c: Cluster, d: Cluster, i: nat, t: int)
    requires Inv(c) && Shape(d) && |d.peers| == |c.peers| && i < |d.peers| && d.net == c.net && c.wins <= d.wins
    requires d.peers[i].status == Leader && d.peers[i].currentTerm == t >= 0 && Led(d, i, t) && t >= c.peers[i].currentTerm
    requires d.leaderLog == c.leaderLog[t := d.peers[i].log]
    requires forall j :: 0 <= j < |d.peers| && j != i ==> d.peers[j] == c.peers[j]
    requires forall j :: 0 <= j < |d.peers| && j != i && d.peers[j].status == Leader ==> d.peers[j].currentTerm != t
    requires Extends(c.leaderLog, d.leaderLog)
    requires Agrees(d.leaderLog, d.peers[i].log)
    requires forall w :: w in d.wins ==> WinOk(d, w)
    ensures Inv(d)
  {
    hide Shape;
    forall j | 0 <= j < |d.peers| ensures PeerOk(d, j) {
      assert PeerOk(c, j);
      if j != i {
        AgreesExtended(c.leaderLog, d.leaderLog, d.peers[j].log);
        hide Agrees;
        if d.peers[j].status == Leader { LedStays(c, d, j, d.peers[j].currentTerm); }
      }
    }
    forall s | s in d.leaderLog ensures TermOk(d, s) {
      if s != t {
        assert TermOk(c, s);
        AgreesExtended(c.leaderLog, d.leaderLog, c.leaderLog[s]);
        hide Agrees;
        if k :| Led(c, k, s) { LedStays(c, d, k, s); }
      }
    }
    hide Agrees;
    forall m | m in d.net ensures MessageOk(d, m) { assert MessageOk(c, m); }
  }

  lemma PeersAgree(c: Cluster)
    requires Inv(c)
    ensures forall i :: 0 <= i < |c.peers| ==> Agrees(c.leaderLog, c.peers[i].log)
  {
    forall i | 0 <= i < |c.peers| ensures Agrees(c.leaderLog, c.peers[i].log) { assert PeerOk(c, i); }
  }

  lemma SentAgrees(c: Cluster, m: Message)
    requires Inv(c) && m in c.net && m.AppendMessage?
    ensures MessageOk(c, m) && Agrees(c.leaderLog, m.sent)
  {
    assert MessageOk(c, m) && TermOk(c, m.args.term);
    AgreesPrefix(c.leaderLog, c.leaderLog[m.args.term], m.sent);
  }

  lemma AcceptedCopies(l: LeaderLogs, p: Peer, args: AppendArgs, sent: seq<LogEntity>)
    requires WellFormed(p) && Agrees(l, p.log) && Agrees(l, sent)
    requires -1 <= args.prevLogIndex < |sent| && sent == sent[..args.prevLogIndex + 1] + args.entries
    requires args.prevLogIndex >= 0 ==> sent[args.prevLogIndex].term == args.prevLogTerm
    ensures var (q, reply) := OnAppend(p, args);
            q.log == if reply.Some? && reply.value.success then sent else p.log
  {
    hide Agrees;
    var prev := args.prevLogIndex;
    var (q, reply) := OnAppend(p, args);
    if reply.Some? && reply.value.success {
      assert q.log == p.log[..prev + 1] + args.entries;
      SameTermSamePrefix(l, p.log, sent, prev);
    } else {
      assert q.log == p.log;
    }
  }

  /** An accepted append leaves the follower with the very log its leader had when sending. */
  lemma AcceptedIsSent(c: Cluster, m: Message)
    requires Inv(c) && m in c.net && m.AppendMessage? && m.to < |c.peers|
    ensures var (p, reply) := OnAppend(c.peers[m.to], m.args);
            p.log == if reply.Some? && reply.value.success then m.sent else c.peers[m.to].log
  {
    PeersAgree(c);
    SentAgrees(c, m);
    hide Agrees, Inv;
    AcceptedCopies(c.leaderLog, c.peers[m.to], m.args, m.sent);
  }

  lemma BecomesFollower(p: Peer, args: AppendArgs)
    requires WellFormed(p)
    ensures var q := OnAppend(p, args).0;
            q == p || (q.status == Follower && q.currentTerm >= p.currentTerm)
    ensures OnAppend(p, args).1.None? ==> OnAppend(p, args).0.currentTerm >= p.currentTerm
  {
  }

  lemma DeliverKeeps(c: Cluster, m: Message)
    requires Inv(c) && m in c.net && m.AppendMessage? && m.to < |c.peers|
    ensures Inv(OnDeliver(c, m))
  {
    PeersAgree(c);
    SentAgrees(c, m);
    AcceptedIsSent(c, m);
    BecomesFollower(c.peers[m.to], m.args);
    hide Agrees, HasGranted, OnAppend;
    LeadersUnchanged(c, OnDeliver(c, m));
  }

  lemma SendKeeps(c: Cluster, i: nat, to: nat, nextIndex: int)
    requires Inv(c) && Next(c, SendAppend(i, to, nextIndex)).Some?
    ensures Inv(Next(c, SendAppend(i, to, nextIndex)).value)
  {
    PeersAgree(c);
    assert PeerOk(c, i);
    hide Agrees;
    LeadersUnchanged(c, Next(c, SendAppend(i, to, nextIndex)).value);
  }

  lemma CommandKeeps(c: Cluster, i: nat, command: int)
    requires Inv(c) && i < |c.peers| && OneWinnerPerTerm(c)
    ensures Inv(OnCommand(c, i, command))
  {
    PeersAgree(c);
    assert PeerOk(c, i);
    hide Agrees;
    var d := OnCommand(c, i, command);
    if c.peers[i].status == Leader {
      var t := c.peers[i].currentTerm;
      forall j | 0 <= j < |d.peers| && j != i && d.peers[j].status == Leader ensures d.peers[j].currentTerm != t {
        assert PeerOk(c, j);
        if d.peers[j].currentTerm == t {
          SameLeader(c, i, j, t);
        }
      }
      assert Extends(c.leaderLog, d.leaderLog);
      AgreesExtended(c.leaderLog, d.leaderLog, c.peers[i].log);
      OneMore(d.leaderLog, c.peers[i].log, LogEntity(t, command));
      LedStays(c, d, i, t);
      forall w | w in d.wins ensures WinOk(d, w) { assert WinOk(c, w); }
      LeaderGrows(c, d, i, t);
    } else {
      LeadersUnchanged(c, d);
    }
  }

  lemma SameLeader(c: Cluster, i: nat, j: nat, t: int)
    requires OneWinnerPerTerm(c) && Led(c, i, t) && Led(c, j, t)
    ensures i == j
  {
  }

  lemma OneMore(l: LeaderLogs, log: seq<LogEntity>, e: LogEntity)
    requires Agrees(l, log) && e.term in l && l[e.term] == log + [e]
    ensures Agrees(l, log + [e])
  {
    var longer := log + [e];
    forall k | 0 <= k < |longer| ensures EntryAgrees(l, longer, k) {
      if k < |log| {
        assert EntryAgrees(l, log, k);
        assert longer[..k + 1] == log[..k + 1];
      }
    }
  }

  lemma HearVoteKeeps(c: Cluster, m: Message)
    requires Inv(c) && m.VoteAnswer? && m.to < |c.peers| && OneWinnerPerTerm(OnHearVote(c, m))
    ensures Inv(OnHearVote(c, m))
  {
    PeersAgree(c);
    var d := OnHearVote(c, m);
    var i, t := m.to, d.peers[m.to].currentTerm;
    assert PeerOk(c, i);
    hide Agrees;
    if d.peers[i].status == Leader && c.peers[i].status != Leader {
      var w := Win(t - 1, i, (if CountsVote(c.peers[i], m.voteReply) then c.counted[i] + {m.from} else c.counted[i]) + {i});
      assert w in d.wins && Led(d, i, t);
      NewTerm(c, d, i, t);
      assert Extends(c.leaderLog, d.leaderLog);
      AgreesExtended(c.leaderLog, d.leaderLog, c.peers[i].log);
      forall w | w in d.wins ensures WinOk(d, w) {
        if w in c.wins { assert WinOk(c, w); }
      }
      LeaderGrows(c, d, i, t);
    } else {
      LeadersUnchanged(c, d);
    }
  }

  lemma LeaderHasTerm(c: Cluster, j: nat, t: int)
    requires Inv(c) && Led(c, j, t)
    ensures j < |c.peers| && c.peers[j].currentTerm >= t
  {
    var w :| w in c.wins && w.server == j && w.term + 1 == t;
    assert WinOk(c, w);
  }

  /** Nobody has led the term a winner takes office in. */
  lemma NewTerm(c: Cluster, d: Cluster, i: nat, t: int)
    requires Inv(c) && OneWinnerPerTerm(d) && c.wins <= d.wins && Led(d, i, t)
    requires i < |c.peers| && c.peers[i].currentTerm < t && t >= 1
    ensures t !in c.leaderLog
    ensures forall j :: 0 <= j < |c.peers| && c.peers[j].status == Leader ==> c.peers[j].currentTerm != t
  {
    forall j ensures !Led(c, j, t) {
      if Led(c, j, t) {
        LedStays(c, d, j, t);
        SameLeader(d, i, j, t);
        LeaderHasTerm(c, j, t);
      }
    }
    assert t in c.leaderLog ==> TermOk(c, t);
    forall j | 0 <= j < |c.peers| && c.peers[j].status == Leader ensures c.peers[j].currentTerm != t {
      assert PeerOk(c, j);
    }
  }

  lemma NextKeeps(c: Cluster, a: Action)
    requires Inv(c) && Next(c, a).Some? && OneWinnerPerTerm(Next(c, a).value)
    ensures Inv(Next(c, a).value)
  {
    hide Agrees, OnAppend, OnVoteRequest, OnVoteReply, AppendRequest;
    NextShape(c, a);
    match a
    case HearVote(m) => HearVoteKeeps(c, m);
    case Append(m) => DeliverKeeps(c, m);
    case SendAppend(i, to, nextIndex) => SendKeeps(c, i, to, nextIndex);
    case ClientCommand(i, command) => CommandKeeps(c, i, command);
    case _ => OthersKeep(c, a);
  }

  lemma OthersKeep(c: Cluster, a: Action)
    requires Inv(c) && Next(c, a).Some? && !a.HearVote? && !a.Append? && !a.SendAppend? && !a.ClientCommand?
    ensures Inv(Next(c, a).value)
  {
    NextShape(c, a);
    PeersAgree(c);
    hide Agrees, OnVoteReply;
    LeadersUnchanged(c, Next(c, a).value);
  }

  lemma {:induction false} EveryRunKeeps(n: nat, actions: seq<Action>)
    requires Execute(Start(n), actions).Some? && OneWinnerPerTerm(Execute(Start(n), actions).value)
    ensures Inv(Execute(Start(n), actions).value)
  {
    var c := Start(n);
    if actions == [] {
      assert EntryAgrees(c.leaderLog, [Filler()], 0);
      assert Agrees(c.leaderLog, [Filler()]);
      hide Agrees;
      assert TermOk(c, -1);
    } else {
      var front := actions[..|actions| - 1];
      NextShape(Execute(c, front).value, actions[|actions| - 1]);
      EveryRunKeeps(n, front);
      NextKeeps(Execute(c, front).value, actions[|actions| - 1]);
    }
  }

  /** In every run in which no term has two winners: logs that hold an entry of the same term at the
      same place are the same up to it. */
  lemma {:induction false} LogMatching(n: nat, actions: seq<Action>, i: nat, j: nat, k: nat)
    requires Execute(Start(n), actions).Some?
    requires var c := Execute(Start(n), actions).value;
             && OneWinnerPerTerm(c) && i < |c.peers| && j < |c.peers|
             && k < |c.peers[i].log| && k < |c.peers[j].log| && c.peers[i].log[k].term == c.peers[j].log[k].term
    ensures var c := Execute(Start(n), actions).value;
            c.peers[i].log[..k + 1] == c.peers[j].log[..k + 1]
  {
    EveryRunKeeps(n, actions);
    var c := Execute(Start(n), actions).value;
    assert PeerOk(c, i) && PeerOk(c, j);
    SameTermSamePrefix(c.leaderLog, c.peers[i].log, c.peers[j].log, k);
  }

  /** In such a run, whenever an append is accepted, now or late or for the second time, the
      follower's whole log becomes the leader's whole log at the time it was sent. */
  lemma {:induction false} AcceptedAppendCopies(n: nat, actions: seq<Action>, m: Message)
    requires Execute(Start(n), actions).Some?
    requires var c := Execute(Start(n), actions).value;
             OneWinnerPerTerm(c) && m in c.net && m.AppendMessage? && m.to < |c.peers|
    ensures var c := Execute(Start(n), actions).value;
            var (p, reply) := OnAppend(c.peers[m.to], m.args);
            reply.Some? && reply.value.success ==> p.log == m.sent
  {
    EveryRunKeeps(n, actions);
    AcceptedIsSent(Execute(Start(n), actions).value, m);
  }

  // ----- Commit indices

  ghost predicate TellsCommit(m: Message) {
    m.AppendMessage? ==> m.args.leaderCommit == m.commit
  }

  lemma {:induction false} EveryAppendTellsCommit(n: nat, actions: seq<Action>, m: Message)
    requires Execute(Start(n), actions).Some? && m in Execute(Start(n), actions).value.net
    ensures TellsCommit(m)
  {
    if actions != [] {
      var front, a := actions[..|actions| - 1], actions[|actions| - 1];
      var c := Execute(Start(n), front).value;
      if m in c.net {
        EveryAppendTellsCommit(n, front, m);
      } else {
        NewAppendTellsCommit(c, a, m);
      }
    }
  }

  lemma NewAppendTellsCommit(c: Cluster, a: Action, m: Message)
    requires Shape(c) && Next(c, a).Some? && m in Next(c, a).value.net && m !in c.net
    ensures TellsCommit(m)
  {
    if a.SendAppend? { RequestMeans(c.peers[a.i], a.i, a.nextIndex); }
    hide AppendRequest, OnAppend, OnVoteRequest, OnVoteReply, OnSnapshot, HasGranted;
  }

  /** In every run, accepting an append leaves the follower's commit index at least what it was and at
      least what the leader's was when it sent the message. */
  lemma AcceptedAppendCommits(n: nat, actions: seq<Action>, m: Message)
    requires Execute(Start(n), actions).Some?
    requires var c := Execute(Start(n), actions).value; m in c.net && m.AppendMessage? && m.to < |c.peers|
    ensures var c := Execute(Start(n), actions).value;
            var (p, reply) := OnAppend(c.peers[m.to], m.args);
            if reply.Some? && reply.value.success then
              && p.commitIndex >= m.commit && p.commitIndex >= c.peers[m.to].commitIndex
              && (p.commitIndex == m.commit || p.commitIndex == c.peers[m.to].commitIndex)
            else p.commitIndex == c.peers[m.to].commitIndex
  {
    EveryAppendTellsCommit(n, actions, m);
    AppendEarned(Execute(Start(n), actions).value.peers[m.to], m.args);
  }
}
