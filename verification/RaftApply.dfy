/** What a Raft server tells its service: commands and snapshots, in order. */
module RaftApply {
  import opened Linearizability
  import opened RaftPeer

  /** A snapshot's bytes are modelled by the commands it stands for. */
  type Image = seq<int>

  /** A command is not valid when it is the filler entry at index 0. */
  datatype ApplyMsg =
    | CommandMsg(valid: bool, command: int, index: int)
    | SnapshotMsg(snapshot: Image, term: int, index: int)

  datatype InstallArgs = InstallArgs(term: int, leaderId: int, lastIncludedIndex: int, lastIncludedTerm: int, data: Image)

  function Commands(log: seq<LogEntity>, from: nat, to: nat): (msgs: seq<ApplyMsg>)
    requires from <= to <= |log|
    ensures |msgs| == to - from
    ensures forall i :: 0 <= i < |msgs| ==> msgs[i] == CommandMsg(from + i != 0, log[from + i].action, from + i)
  {
    seq(to - from, i requires 0 <= i < to - from => CommandMsg(from + i != 0, log[from + i].action, from + i))
  }

  /** What is to be told next; nothing when the server halts because its log is too short. */
  function Ready(p: Peer, stored: Image): Option<(Peer, seq<ApplyMsg>)>
    requires WellFormed(p) && p.lastApplied >= -1
  {
    if p.lastApplied + 1 < p.compacted then
      Some((p.(lastApplied := p.compacted - 1), [SnapshotMsg(stored, p.log[p.compacted - 1].term, p.compacted - 1)]))
    else if p.lastApplied >= p.commitIndex then
      Some((p, []))
    else if p.commitIndex >= |p.log| then
      None
    else
      Some((p.(lastApplied := p.commitIndex), Commands(p.log, p.lastApplied + 1, p.commitIndex + 1)))
  }

  /** A delivery tells of the snapshot if that is ahead, and else of every entry up to the commit index; it
      fails exactly when the log does not reach so far. */
  lemma ReadyMeans(p: Peer, stored: Image)
    requires WellFormed(p) && p.lastApplied >= -1
    ensures var behind := p.lastApplied + 1 < p.compacted;
            && (Ready(p, stored).None? <==> !behind && p.lastApplied < p.commitIndex && p.commitIndex >= |p.log|)
            && (Ready(p, stored).Some? ==>
                  var (q, msgs) := Ready(p, stored).value;
                  && q == p.(lastApplied := q.lastApplied)
                  && if behind then
                       q.lastApplied == p.compacted - 1
                       && |msgs| == 1 && msgs[0] == SnapshotMsg(stored, p.log[p.compacted - 1].term, p.compacted - 1)
                     else
                       && q.lastApplied == (if p.commitIndex > p.lastApplied then p.commitIndex else p.lastApplied)
                       && |msgs| == q.lastApplied - p.lastApplied
                       && forall k :: 0 <= k < |msgs| ==>
                            var index := p.lastApplied + 1 + k;
                            msgs[k] == CommandMsg(index != 0, p.log[index].action, index))
  {
  }

  predicate TakesInstall(p: Peer, args: InstallArgs) {
    args.term >= p.currentTerm && p.compacted <= args.lastIncludedIndex
  }

  /** covered are the entries that the snapshot stands for. What the log had beyond them stays. */
  function OnInstall(p: Peer, args: InstallArgs, covered: seq<LogEntity>): (q: Peer)
    requires WellFormed(p) && (TakesInstall(p, args) ==> |covered| == args.lastIncludedIndex + 1)
    ensures WellFormed(q)
  {
    if args.term < p.currentTerm then p
    else if p.compacted > args.lastIncludedIndex then BecomeFollower(p, args.term, -1)
    else BecomeFollower(p, args.term, -1).(
           log := covered + if |covered| < |p.log| then p.log[|covered|..] else [],
           compacted := |covered|)
  }

  /** A snapshot is installed exactly when it is of no earlier term and covers an entry not yet compacted. */
  lemma InstallMeans(p: Peer, args: InstallArgs, covered: seq<LogEntity>)
    requires WellFormed(p) && (TakesInstall(p, args) ==> |covered| == args.lastIncludedIndex + 1)
    ensures TakesInstall(p, args) <==> args.term >= p.currentTerm && args.lastIncludedIndex >= p.compacted
    ensures var q := OnInstall(p, args, covered);
            if args.term < p.currentTerm then q == p
            else if args.lastIncludedIndex < p.compacted then
              q == p.(status := Follower, currentTerm := args.term, votedFor := -1, numVoteGathered := 0)
            else
              && q == p.(status := Follower, currentTerm := args.term, votedFor := -1, numVoteGathered := 0,
                         log := q.log, compacted := args.lastIncludedIndex + 1)
              && q.log == covered + if |p.log| > args.lastIncludedIndex + 1 then p.log[args.lastIncludedIndex + 1..] else []
  {
  }

  // ----- The service

  /** The service takes a command only in its turn, and a snapshot only if that is ahead of it and
      stands for as many commands as its index says. */
  function Consume(image: Image, msgs: seq<ApplyMsg>): Option<Image> {
    if msgs == [] then Some(image) else
      match Consume(image, msgs[..|msgs| - 1])
      case None => None
      case Some(before) =>
        match msgs[|msgs| - 1]
        case CommandMsg(_, command, index) =>
          if index == |before| then Some(before + [command]) else None
        case SnapshotMsg(snapshot, _, index) =>
          if index == |snapshot| - 1 && index >= |before| then Some(snapshot) else None
  }

  lemma {:induction false} ConsumeMore(image: Image, msgs: seq<ApplyMsg>, more: seq<ApplyMsg>)
    ensures Consume(image, msgs + more)
         == match Consume(image, msgs)
            case None => None
            case Some(before) => Consume(before, more)
  {
    if more == [] {
      assert msgs + more == msgs;
    } else {
      var front := more[..|more| - 1];
      ConsumeMore(image, msgs, front);
      assert (msgs + more)[..|msgs + more| - 1] == msgs + front;
    }
  }

  function Actions(log: seq<LogEntity>): (image: Image)
    ensures |image| == |log| && forall i :: 0 <= i < |log| ==> image[i] == log[i].action
  {
    seq(|log|, i requires 0 <= i < |log| => log[i].action)
  }

  /** Commands told from where the service is take it on by exactly their actions. */
  lemma {:induction false} ConsumeCommands(image: Image, log: seq<LogEntity>, stop: nat)
    requires |image| <= stop <= |log|
    ensures Consume(image, Commands(log, |image|, stop)) == Some(image + Actions(log[|image|..stop]))
    decreases stop
  {
    var msgs := Commands(log, |image|, stop);
    if |image| < stop {
      assert msgs[..|msgs| - 1] == Commands(log, |image|, stop - 1);
      ConsumeCommands(image, log, stop - 1);
      assert image + Actions(log[|image|..stop]) == image + Actions(log[|image|..stop - 1]) + [log[stop - 1].action];
    } else {
      assert image + Actions(log[|image|..stop]) == image;
    }
  }

  // ----- One incarnation

  datatype Life = Life(p: Peer, stored: Image, delivered: seq<ApplyMsg>)

  datatype Happening =
    | Handled(event: Event)
    | Delivers
    | ServiceSnapshot(index: int, data: Image)
    | Installed(args: InstallArgs, covered: seq<LogEntity>)

  /** The commit index stays within the log, the service makes snapshots of what it was told, and
      snapshots from elsewhere stand for what they say. */
  predicate Fair(life: Life, me: int, peers: nat, h: Happening)
    requires WellFormed(life.p)
  {
    match h
    case Handled(event) =>
      !event.MakesSnapshot? && var q := Respond(life.p, me, peers, event).0; q.commitIndex <= LastIndex(q)
    case Delivers => true
    case ServiceSnapshot(index, data) => index <= life.p.lastApplied && |data| == index + 1
    case Installed(args, covered) =>
      |args.data| == args.lastIncludedIndex + 1 && (TakesInstall(life.p, args) ==> |covered| == args.lastIncludedIndex + 1)
  }

  /** No append and no install changes what has been told, the service makes snapshots of just what it
      was told, and snapshots from elsewhere stand for the entries they say. */
  predicate Steady(life: Life, me: int, peers: nat, h: Happening)
    requires WellFormed(life.p) && Fair(life, me, peers, h)
  {
    match h
    case Handled(event) => SameApplied(life.p, Respond(life.p, me, peers, event).0)
    case Delivers => true
    case ServiceSnapshot(index, data) =>
      var image := Consume([], life.delivered);
      image.Some? && index < |image.value| && data == image.value[..index + 1]
    case Installed(args, covered) =>
      SameApplied(life.p, OnInstall(life.p, args, covered)) && (TakesInstall(life.p, args) ==> args.data == Actions(covered))
  }

  /** Up to the last entry told the logs are the same. */
  predicate SameApplied(p: Peer, q: Peer) {
    0 <= p.lastApplied + 1 <= |p.log| && p.lastApplied + 1 <= |q.log| && p.log[..p.lastApplied + 1] == q.log[..p.lastApplied + 1]
  }

  /** Nothing when the server halts. */
  function Happen(life: Life, me: int, peers: nat, h: Happening): Option<Life>
    requires WellFormed(life.p) && life.p.lastApplied >= -1 && Fair(life, me, peers, h)
  {
    match h
    case Handled(event) => Some(life.(p := Respond(life.p, me, peers, event).0))
    case Delivers =>
      (match Ready(life.p, life.stored)
       case None => None
       case Some((q, msgs)) => Some(life.(p := q, delivered := life.delivered + msgs)))
    case ServiceSnapshot(index, data) =>
      (match OnSnapshot(life.p, index)
       case None => None
       case Some(q) => Some(Life(q, if TakesSnapshot(life.p, index) then data else life.stored, life.delivered)))
    case Installed(args, covered) =>
      Some(Life(OnInstall(life.p, args, covered), if TakesInstall(life.p, args) then args.data else life.stored, life.delivered))
  }

  /** The stored snapshot stands for the compacted entries, and the service has taken everything it
      was told, in order, up to where the server believes it is. */
  ghost predicate InStep(life: Life) {
    && WellFormed(life.p)
    && (life.p.compacted > 0 ==> |life.stored| == life.p.compacted)
    && Consume([], life.delivered).Some?
    && |Consume([], life.delivered).value| == life.p.lastApplied + 1
    && life.p.commitIndex <= LastIndex(life.p)
  }

  /** Where an incarnation begins: with what was saved, and nothing told yet. */
  predicate Begins(life: Life) {
    && WellFormed(life.p) && life.p == Restarted(life.p) && life.delivered == []
    && (life.p.compacted > 0 ==> |life.stored| == life.p.compacted)
  }

  ghost predicate Leads(before: Life, me: int, peers: nat, h: Happening, steady: bool, after: Life) {
    && WellFormed(before.p) && before.p.lastApplied >= -1 && Fair(before, me, peers, h)
    && (steady ==> Steady(before, me, peers, h))
    && Happen(before, me, peers, h) == Some(after)
  }

  ghost predicate Lives(life: Life, me: int, peers: nat, happenings: seq<Happening>, steady: bool, end: Life)
    decreases |happenings|
  {
    if happenings == [] then end == life else
      exists next :: Leads(life, me, peers, happenings[0], steady, next)
                  && Lives(next, me, peers, happenings[1..], steady, end)
  }

  lemma DeliveryKeeps(life: Life)
    requires InStep(life) && Ready(life.p, life.stored).Some?
    ensures var (q, msgs) := Ready(life.p, life.stored).value; InStep(life.(p := q, delivered := life.delivered + msgs))
  {
    var (q, msgs) := Ready(life.p, life.stored).value;
    ConsumeMore([], life.delivered, msgs);
    var image := Consume([], life.delivered).value;
    hide Consume, Commands;
    if life.p.lastApplied + 1 < life.p.compacted {
      ConsumeSnapshot(image, msgs[0]);
    } else if life.p.lastApplied < life.p.commitIndex {
      ConsumeCommands(image, life.p.log, life.p.commitIndex + 1);
    } else {
      ConsumeNothing(image);
    }
  }

  lemma {:induction false} ConsumeSnapshot(image: Image, msg: ApplyMsg)
    requires msg.SnapshotMsg? && |image| <= msg.index == |msg.snapshot| - 1
    ensures Consume(image, [msg]) == Some(msg.snapshot)
  {
    assert [msg][..0] == [];
  }

  lemma {:induction false} ConsumeNothing(image: Image)
    ensures Consume(image, []) == Some(image)
  {
  }

  lemma HappenKeeps(life: Life, me: int, peers: nat, h: Happening)
    requires InStep(life) && Fair(life, me, peers, h) && Happen(life, me, peers, h).Some?
    ensures InStep(Happen(life, me, peers, h).value)
  {
    hide Consume, Commands;
    if h.Delivers? {
      DeliveryKeeps(life);
    } else if h.Handled? {
      RespondKeeps(life.p, me, peers, h.event);
    }
  }

  lemma RespondKeeps(p: Peer, me: int, peers: nat, event: Event)
    requires WellFormed(p) && !event.MakesSnapshot?
    ensures var q := Respond(p, me, peers, event).0;
            WellFormed(q) && q.compacted == p.compacted && q.lastApplied == p.lastApplied
  {
  }

  lemma {:induction false} LivesInStep(life: Life, me: int, peers: nat, happenings: seq<Happening>, steady: bool, end: Life)
    requires InStep(life) && Lives(life, me, peers, happenings, steady, end)
    ensures InStep(end)
    decreases |happenings|
  {
    if happenings != [] {
      var next :| Leads(life, me, peers, happenings[0], steady, next) && Lives(next, me, peers, happenings[1..], steady, end);
      HappenKeeps(life, me, peers, happenings[0]);
      LivesInStep(next, me, peers, happenings[1..], steady, end);
    }
  }

  /** Through any interleaving of commits, snapshots and installs, the service is told commands
      without gap or repeat, and a snapshot only moves it forward to what the snapshot holds. */
  lemma {:induction false} ToldInOrder(life: Life, me: int, peers: nat, happenings: seq<Happening>, steady: bool, end: Life)
    requires Begins(life) && Lives(life, me, peers, happenings, steady, end)
    ensures Consume([], end.delivered).Some?
    ensures |Consume([], end.delivered).value| == end.p.lastApplied + 1
  {
    LivesInStep(life, me, peers, happenings, steady, end);
  }

  /** Nothing committed is kept back: of two deliveries on end the first tells of a snapshot if need be, and
      the second of everything up to the commit index. */
  lemma TwoDeliveries(life: Life, me: int, peers: nat)
    requires InStep(life)
    ensures Happen(life, me, peers, Delivers).Some?
    ensures var once := Happen(life, me, peers, Delivers).value;
            && InStep(once) && Happen(once, me, peers, Delivers).Some?
            && var twice := Happen(once, me, peers, Delivers).value;
               InStep(twice) && twice.p.lastApplied >= life.p.commitIndex == twice.p.commitIndex
  {
    ReadyMeans(life.p, life.stored);
    HappenKeeps(life, me, peers, Delivers);
    var once := Happen(life, me, peers, Delivers).value;
    ReadyMeans(once.p, once.stored);
    HappenKeeps(once, me, peers, Delivers);
    hide Ready, Consume, WellFormed;
  }

  // ----- What the service is told

  /** The stored snapshot stands for the compacted entries, and the service has just the actions of
      the log up to where the server believes it is. */
  ghost predicate InAgreement(life: Life) {
    && WellFormed(life.p) && -1 <= life.p.lastApplied <= LastIndex(life.p)
    && (life.p.compacted > 0 ==> life.stored == Actions(life.p.log[..life.p.compacted]))
    && Consume([], life.delivered) == Some(Actions(life.p.log[..life.p.lastApplied + 1]))
  }

  lemma ActionsOfPrefix(log: seq<LogEntity>, i: nat, j: nat)
    requires i <= j <= |log|
    ensures Actions(log[..j])[..i] == Actions(log[..i])
    ensures Actions(log[..i]) + Actions(log[i..j]) == Actions(log[..j])
  {
  }

  lemma CommandsTold(log: seq<LogEntity>, from: nat, to: nat)
    requires from <= to <= |log|
    ensures Consume(Actions(log[..from]), Commands(log, from, to)) == Some(Actions(log[..to]))
  {
    ConsumeCommands(Actions(log[..from]), log, to);
    ActionsOfPrefix(log, from, to);
  }

  lemma DeliveryAgrees(life: Life)
    requires InAgreement(life) && Ready(life.p, life.stored).Some?
    ensures var (q, msgs) := Ready(life.p, life.stored).value; InAgreement(life.(p := q, delivered := life.delivered + msgs))
  {
    hide Consume, Commands;
    var p := life.p;
    var (q, msgs) := Ready(p, life.stored).value;
    ConsumeMore([], life.delivered, msgs);
    if p.lastApplied + 1 < p.compacted {
      ConsumeSnapshot(Actions(p.log[..p.lastApplied + 1]), msgs[0]);
    } else if p.lastApplied < p.commitIndex {
      CommandsTold(p.log, p.lastApplied + 1, p.commitIndex + 1);
    } else {
      ConsumeNothing(Actions(p.log[..p.lastApplied + 1]));
    }
  }

  /** An append never touches the entries inside the snapshot. */
  lemma RespondKeepsCompacted(p: Peer, me: int, peers: nat, event: Event)
    requires WellFormed(p) && !event.MakesSnapshot?
    ensures var q := Respond(p, me, peers, event).0;
            && WellFormed(q) && q.compacted == p.compacted && q.lastApplied == p.lastApplied
            && q.log[..p.compacted] == p.log[..p.compacted]
  {
  }

  lemma HappenAgrees(life: Life, me: int, peers: nat, h: Happening)
    requires InAgreement(life) && Fair(life, me, peers, h) && Steady(life, me, peers, h) && Happen(life, me, peers, h).Some?
    ensures InAgreement(Happen(life, me, peers, h).value)
  {
    hide Consume, Commands;
    match h
    case Delivers => DeliveryAgrees(life);
    case Handled(event) => RespondKeepsCompacted(life.p, me, peers, event);
    case ServiceSnapshot(index, data) =>
      if TakesSnapshot(life.p, index) { ActionsOfPrefix(life.p.log, index + 1, life.p.lastApplied + 1); }
    case Installed(args, covered) =>
      if TakesInstall(life.p, args) { assert OnInstall(life.p, args, covered).log[..|covered|] == covered; }
  }

  lemma {:induction false} LivesInAgreement(life: Life, me: int, peers: nat, happenings: seq<Happening>, end: Life)
    requires InAgreement(life) && Lives(life, me, peers, happenings, true, end)
    ensures InAgreement(end)
    decreases |happenings|
  {
    if happenings != [] {
      var next :| Leads(life, me, peers, happenings[0], true, next) && Lives(next, me, peers, happenings[1..], true, end);
      HappenAgrees(life, me, peers, happenings[0]);
      LivesInAgreement(next, me, peers, happenings[1..], end);
    }
  }

  /** As long as no entry that was told is changed, the service has in every state exactly the actions
      of the server's log up to the last entry told, in order. */
  lemma {:induction false} ToldTheLog(life: Life, me: int, peers: nat, happenings: seq<Happening>, end: Life)
    requires Begins(life) && Lives(life, me, peers, happenings, true, end)
    requires life.p.compacted > 0 ==> life.stored == Actions(life.p.log[..life.p.compacted])
    ensures -1 <= end.p.lastApplied <= LastIndex(end.p)
    ensures Consume([], end.delivered) == Some(Actions(end.p.log[..end.p.lastApplied + 1]))
  {
    LivesInAgreement(life, me, peers, happenings, end);
  }
}
