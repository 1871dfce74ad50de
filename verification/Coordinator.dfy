/** The MapReduce coordinator: which task it hands out, and what it makes of reports. */
module Coordinator {

  datatype TaskStatus = InStore | OnFly | Finished
  datatype TaskType = Map | Reduce | Wait | Done
  datatype RequestType = Get | Put
  datatype RequestTaskArgs = RequestTaskArgs(requestType: RequestType, taskType: TaskType, taskInd: int)
  datatype RequestTaskReply = RequestTaskReply(taskType: TaskType, taskInd: int, fileName: string, nReduce: nat, nMap: nat)

  /** The coordinator's state; times are in seconds. */
  datatype Book = Book(
    files: seq<string>,
    mapStatus: seq<TaskStatus>,
    mapHandoutTime: seq<int>,
    reduceStatus: seq<TaskStatus>,
    reduceHandoutTime: seq<int>,
    isDone: bool)

  predicate WellKept(b: Book) {
    |b.files| == |b.mapStatus| == |b.mapHandoutTime| && |b.reduceStatus| == |b.reduceHandoutTime|
  }

  function NewBook(files: seq<string>, nReduce: nat): Book {
    Book(files, seq(|files|, _ => InStore), seq(|files|, _ => 0), seq(nReduce, _ => InStore), seq(nReduce, _ => 0), false)
  }

  predicate AllFinished(status: seq<TaskStatus>) {
    forall i :: 0 <= i < |status| ==> status[i] == Finished
  }

  /** A task can be handed out when nobody has it, or whoever has it took over ten seconds. */
  predicate Free(status: TaskStatus, handedOut: int, now: int) {
    status == InStore || (status == OnFly && handedOut < now - 10)
  }

  /** The first free task, or the number of tasks if there is none. */
  function FirstFree(status: seq<TaskStatus>, handedOut: seq<int>, now: int): (i: nat)
    requires |status| == |handedOut|
    ensures i <= |status|
    ensures forall j :: 0 <= j < i ==> !Free(status[j], handedOut[j], now)
    ensures i < |status| ==> Free(status[i], handedOut[i], now)
  {
    if status == [] || Free(status[0], handedOut[0], now) then 0
    else 1 + FirstFree(status[1..], handedOut[1..], now)
  }

  predicate InRange(b: Book, args: RequestTaskArgs) {
    args.requestType == Put ==> 0 <= args.taskInd < if args.taskType == Map then |b.mapStatus| else |b.reduceStatus|
  }

  /** What the coordinator does and answers. */
  function Handle(b: Book, args: RequestTaskArgs, now: int): (Book, RequestTaskReply)
    requires WellKept(b) && InRange(b, args)
  {
    if args.requestType == Put then
      var b' := if args.taskType == Map then b.(mapStatus := b.mapStatus[args.taskInd := Finished])
                else b.(reduceStatus := b.reduceStatus[args.taskInd := Finished]);
      var finished := args.taskType != Map && AllFinished(b'.mapStatus) && AllFinished(b'.reduceStatus);
      (b'.(isDone := b.isDone || finished), RequestTaskReply(Map, 0, "", 0, 0))
    else if AllFinished(b.mapStatus) && AllFinished(b.reduceStatus) then
      (b.(isDone := true), RequestTaskReply(Done, 0, "", 0, 0))
    else if !AllFinished(b.mapStatus) then
      var i := FirstFree(b.mapStatus, b.mapHandoutTime, now);
      if i < |b.mapStatus| then
        (b.(mapStatus := b.mapStatus[i := OnFly], mapHandoutTime := b.mapHandoutTime[i := now]),
         RequestTaskReply(Map, i, b.files[i], |b.reduceStatus|, 0))
      else (b, RequestTaskReply(Wait, 0, "", |b.reduceStatus|, 0))
    else
      var i := FirstFree(b.reduceStatus, b.reduceHandoutTime, now);
      if i < |b.reduceStatus| then
        (b.(reduceStatus := b.reduceStatus[i := OnFly], reduceHandoutTime := b.reduceHandoutTime[i := now]),
         RequestTaskReply(Reduce, i, "", |b.reduceStatus|, |b.files|))
      else (b, RequestTaskReply(Wait, 0, "", |b.reduceStatus|, |b.files|))
  }

  /** No request makes a finished task unfinished, and the job is done only when every task is. */
  lemma FinishedStays(b: Book, args: RequestTaskArgs, now: int)
    requires WellKept(b) && InRange(b, args)
    ensures var b' := Handle(b, args, now).0;
            && WellKept(b') && b'.files == b.files && |b'.reduceStatus| == |b.reduceStatus|
            && (forall i :: 0 <= i < |b.mapStatus| && b.mapStatus[i] == Finished ==> b'.mapStatus[i] == Finished)
            && (forall i :: 0 <= i < |b.reduceStatus| && b.reduceStatus[i] == Finished ==> b'.reduceStatus[i] == Finished)
            && (forall i :: 0 <= i < |b.mapStatus| && b'.mapStatus[i] == Finished ==>
                  b.mapStatus[i] == Finished || args == RequestTaskArgs(Put, Map, i))
            && (forall i :: 0 <= i < |b.reduceStatus| && b'.reduceStatus[i] == Finished ==>
                  b.reduceStatus[i] == Finished || (args.requestType == Put && args.taskType != Map && args.taskInd == i))
            && (b.isDone ==> b'.isDone)
            && (b'.isDone && !b.isDone ==> AllFinished(b'.mapStatus) && AllFinished(b'.reduceStatus))
  {
  }

  /** Task i of a phase is handed out: it is the first that is due, and is now on the fly since now. */
  ghost predicate HandedOut(status: seq<TaskStatus>, times: seq<int>, status': seq<TaskStatus>, times': seq<int>, i: int, now: int) {
    && |status| == |times| == |status'| == |times'| && 0 <= i < |status|
    && (status[i] == InStore || (status[i] == OnFly && now - times[i] > 10))
    && (forall j :: 0 <= j < i ==> status[j] == Finished || (status[j] == OnFly && now - times[j] <= 10))
    && status' == status[i := OnFly] && times' == times[i := now]
  }

  /** Every task of the phase is finished or was handed out within the last ten seconds. */
  ghost predicate AllBusy(status: seq<TaskStatus>, times: seq<int>, now: int)
    requires |status| == |times|
  {
    forall j :: 0 <= j < |status| ==> status[j] == Finished || (status[j] == OnFly && now - times[j] <= 10)
  }

  /** What an asking worker is told in every case, and what becomes of the book. */
  ghost predicate Asked(b: Book, b': Book, reply: RequestTaskReply, now: int)
    requires WellKept(b)
  {
    var mapping := exists i :: 0 <= i < |b.mapStatus| && b.mapStatus[i] != Finished;
    var reducing := !mapping && exists i :: 0 <= i < |b.reduceStatus| && b.reduceStatus[i] != Finished;
    match reply.taskType
    case Map =>
      && mapping && HandedOut(b.mapStatus, b.mapHandoutTime, b'.mapStatus, b'.mapHandoutTime, reply.taskInd, now)
      && b' == b.(mapStatus := b'.mapStatus, mapHandoutTime := b'.mapHandoutTime)
      && reply.fileName == b.files[reply.taskInd] && reply.nReduce == |b.reduceStatus|
    case Reduce =>
      && reducing && HandedOut(b.reduceStatus, b.reduceHandoutTime, b'.reduceStatus, b'.reduceHandoutTime, reply.taskInd, now)
      && b' == b.(reduceStatus := b'.reduceStatus, reduceHandoutTime := b'.reduceHandoutTime)
      && reply.nMap == |b.files|
    case Wait =>
      && b' == b && (mapping || reducing)
      && if mapping then AllBusy(b.mapStatus, b.mapHandoutTime, now) else AllBusy(b.reduceStatus, b.reduceHandoutTime, now)
    case Done => !mapping && !reducing && b' == b.(isDone := true)
  }

  /** Asking hands out exactly the first task due of the phase, says to wait exactly when every unfinished
      task of it was handed out within the last ten seconds, and is done exactly when all are finished. */
  lemma AskingMeans(b: Book, args: RequestTaskArgs, now: int)
    requires WellKept(b) && args.requestType == Get
    ensures Asked(b, Handle(b, args, now).0, Handle(b, args, now).1, now)
  {
  }

  /** A report finishes its task and no other; the last one of a reduce task ends the job. */
  lemma ReportingMeans(b: Book, args: RequestTaskArgs, now: int)
    requires WellKept(b) && InRange(b, args) && args.requestType == Put
    ensures var b' := Handle(b, args, now).0;
            && b'.mapStatus == (if args.taskType == Map then b.mapStatus[args.taskInd := Finished] else b.mapStatus)
            && b'.reduceStatus == (if args.taskType == Map then b.reduceStatus else b.reduceStatus[args.taskInd := Finished])
            && b'.files == b.files && b'.mapHandoutTime == b.mapHandoutTime && b'.reduceHandoutTime == b.reduceHandoutTime
            && (b'.isDone <==>
                  || b.isDone
                  || (&& args.taskType != Map
                      && (forall i :: 0 <= i < |b'.mapStatus| ==> b'.mapStatus[i] == Finished)
                      && (forall i :: 0 <= i < |b'.reduceStatus| ==> b'.reduceStatus[i] == Finished)))
  {
  }

  class Coordinator {
    const files: seq<string>
    const nMap: nat
    const mapHandoutTime: array<int>
    const mapStatus: array<TaskStatus>
    const nReduce: nat
    const reduceHandoutTime: array<int>
    const reduceStatus: array<TaskStatus>
    var isDone: bool

    ghost predicate Valid() {
      && nMap == |files| == mapStatus.Length == mapHandoutTime.Length
      && nReduce == reduceStatus.Length == reduceHandoutTime.Length
      && mapStatus != reduceStatus && mapHandoutTime != reduceHandoutTime
    }

    ghost function View(): Book
      reads this, mapStatus, mapHandoutTime, reduceStatus, reduceHandoutTime
    {
      Book(files, mapStatus[..], mapHandoutTime[..], reduceStatus[..], reduceHandoutTime[..], isDone)
    }

    constructor (files: seq<string>, nReduce: nat)
      ensures Valid() && View() == NewBook(files, nReduce)
      ensures |files| == mapStatus.Length && nReduce == reduceStatus.Length && !isDone
      ensures (forall i :: 0 <= i < |files| ==> mapStatus[i] == InStore) && (forall i :: 0 <= i < nReduce ==> reduceStatus[i] == InStore)
      ensures fresh(mapStatus) && fresh(mapHandoutTime) && fresh(reduceStatus) && fresh(reduceHandoutTime)
    {
      this.files, nMap, this.nReduce := files, |files|, nReduce;
      mapStatus := new TaskStatus[|files|](_ => InStore);
      mapHandoutTime := new int[|files|](_ => 0);
      reduceStatus := new TaskStatus[nReduce](_ => InStore);
      reduceHandoutTime := new int[nReduce](_ => 0);
      isDone := false;
    }

    method AllMapDone() returns (r: bool)
      requires Valid()
      ensures r == AllFinished(mapStatus[..])
    {
      for i := 0 to mapStatus.Length
        invariant forall j :: 0 <= j < i ==> mapStatus[j] == Finished
      {
        if mapStatus[i] != Finished {
          return false;
        }
      }
      return true;
    }

    method AllReduceDone() returns (r: bool)
      requires Valid()
      ensures r == AllFinished(reduceStatus[..])
    {
      for i := 0 to reduceStatus.Length
        invariant forall j :: 0 <= j < i ==> reduceStatus[j] == Finished
      {
        if reduceStatus[i] != Finished {
          return false;
        }
      }
      return true;
    }

    /** The loop over tasks: takes the first free one, or answers that there is none. */
    method TakeFree(status: array<TaskStatus>, handoutTime: array<int>, now: int) returns (granted: bool, taskInd: nat)
      requires status.Length == handoutTime.Length
      modifies status, handoutTime
      ensures taskInd == FirstFree(old(status[..]), old(handoutTime[..]), now)
      ensures granted == (taskInd < status.Length)
      ensures granted ==> HandedOut(old(status[..]), old(handoutTime[..]), status[..], handoutTime[..], taskInd, now)
      ensures !granted ==> AllBusy(old(status[..]), old(handoutTime[..]), now)
      ensures status[..] == if granted then old(status[..])[taskInd := OnFly] else old(status[..])
      ensures handoutTime[..] == if granted then old(handoutTime[..])[taskInd := now] else old(handoutTime[..])
    {
      granted, taskInd := false, status.Length;
      ghost var first := FirstFree(status[..], handoutTime[..], now);
      for i := 0 to status.Length
        invariant forall j :: 0 <= j < i ==> !Free(status[j], handoutTime[j], now)
        invariant !granted && taskInd == status.Length && status[..] == old(status[..]) && handoutTime[..] == old(handoutTime[..])
      {
        if status[i] == InStore || (status[i] == OnFly && handoutTime[i] < now - 10) {
          taskInd := i;
          handoutTime[i] := now;
          status[i] := OnFly;
          granted := true;
          return;
        }
      }
    }

    method HandleRequestTask(args: RequestTaskArgs, now: int) returns (reply: RequestTaskReply)
      requires Valid() && InRange(View(), args)
      modifies this`isDone, mapStatus, mapHandoutTime, reduceStatus, reduceHandoutTime
      ensures Valid()
      ensures (View(), reply) == Handle(old(View()), args, now)
      ensures args.requestType == Get ==> Asked(old(View()), View(), reply, now)
    {
      if args.requestType == Get { AskingMeans(View(), args, now); }
      hide Asked;
      reply := RequestTaskReply(Map, 0, "", 0, 0);
      if args.requestType == Put {
        if args.taskType == Map {
          mapStatus[args.taskInd] := Finished;
        } else {
          reduceStatus[args.taskInd] := Finished;
          var allMap := AllMapDone();
          var allReduce := AllReduceDone();
          if allMap && allReduce {
            isDone := true;
          }
        }
        return;
      }
      var allMap := AllMapDone();
      var allReduce := AllReduceDone();
      if allMap && allReduce {
        isDone := true;
        reply := reply.(taskType := Done);
        return;
      }
      reply := reply.(taskType := Map, nReduce := nReduce);
      if !allMap {
        var granted, i := TakeFree(mapStatus, mapHandoutTime, now);
        if granted {
          reply := reply.(taskInd := i, fileName := files[i]);
        } else {
          reply := reply.(taskType := Wait);
        }
        return;
      }
      reply := reply.(taskType := Reduce, nMap := nMap);
      var granted, i := TakeFree(reduceStatus, reduceHandoutTime, now);
      if granted {
        reply := reply.(taskInd := i);
      } else {
        reply := reply.(taskType := Wait);
      }
    }
  }
}
