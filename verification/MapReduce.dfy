/** A whole MapReduce job: the coordinator, workers that may crash at any point, reports that may
    arrive late or twice, and files that appear whole by being renamed. */
module MapReduce {
  import opened Linearizability
  import opened Sorting
  import opened Grouping
  import opened Coordinator

  datatype Job = Job(files: seq<string>, content: string -> string, mapf: MapFunction, reducef: ReduceFunction, hash: Hash, nReduce: nat)

  ghost predicate Proper(job: Job) {
    job.nReduce > 0 && OrderFree(job.reducef)
  }

  /** What a map task emits, and what of it goes to one reduce task. */
  function Emitted(job: Job, fileName: string): seq<KeyValue> {
    job.mapf(fileName, job.content(fileName))
  }

  function Intermediate(job: Job, m: nat, r: nat): seq<KeyValue>
    requires job.nReduce > 0 && m < |job.files|
  {
    Bucket(Emitted(job, job.files[m]), job.hash, job.nReduce, r)
  }

  /** What all map tasks emit. */
  function AllEmitted(job: Job): (parts: seq<seq<KeyValue>>)
    ensures |parts| == |job.files| && forall m :: 0 <= m < |parts| ==> parts[m] == Emitted(job, job.files[m])
  {
    seq(|job.files|, m requires 0 <= m < |job.files| => Emitted(job, job.files[m]))
  }

  // ----- The tasks

  /** Distributes the pairs over the intermediate files of a map task. */
  method DoMap(job: Job, fileName: string, nReduce: nat) returns (tmpFiles: seq<seq<KeyValue>>)
    requires nReduce > 0
    ensures |tmpFiles| == nReduce
    ensures forall r :: 0 <= r < nReduce ==> tmpFiles[r] == Bucket(Emitted(job, fileName), job.hash, nReduce, r)
  {
    var kva := job.mapf(fileName, job.content(fileName));
    tmpFiles := [];
    for i := 0 to nReduce
      invariant |tmpFiles| == i && forall r :: 0 <= r < i ==> tmpFiles[r] == []
    {
      tmpFiles := tmpFiles + [[]];
    }
    for i := 0 to |kva|
      invariant |tmpFiles| == nReduce
      invariant forall r :: 0 <= r < nReduce ==> tmpFiles[r] == Bucket(kva[..i], job.hash, nReduce, r)
    {
      var reduceInd := job.hash(kva[i].key) % nReduce;
      assert kva[..i + 1][..i] == kva[..i];
      tmpFiles := tmpFiles[reduceInd := tmpFiles[reduceInd] + [kva[i]]];
    }
    assert kva[..|kva|] == kva;
  }

  /** Reads the intermediate files of a reduce task and writes its output. */
  method DoReduce(reducef: ReduceFunction, files: seq<seq<KeyValue>>) returns (lines: seq<Line>)
    ensures exists sorted :: SortedBy(sorted, ByKey) && multiset(sorted) == multiset(Concat(files)) && lines == Groups(sorted, reducef)
    ensures OrderFree(reducef) ==> multiset(lines) == multiset(Lines(Concat(files), reducef))
  {
    var kva := [];
    for i := 0 to |files|
      invariant kva == Concat(files[..i])
    {
      var before := kva;
      for k := 0 to |files[i]|
        invariant kva == before + files[i][..k]
      {
        kva := kva + [files[i][k]];
      }
      assert files[..i + 1][..i] == files[..i];
      assert files[i][..|files[i]|] == files[i];
    }
    assert files[..|files|] == files;
    ByKeyIsOrder();
    var sorted := Sort(kva, ByKey);
    lines := GroupReduce(sorted, reducef);
    if OrderFree(reducef) {
      SortedGroups(kva, sorted, reducef);
    }
  }

  /** The sequential program. */
  method Sequential(job: Job) returns (lines: seq<Line>)
    ensures exists sorted :: SortedBy(sorted, ByKey) && multiset(sorted) == multiset(Concat(AllEmitted(job)))
                          && lines == Groups(sorted, job.reducef)
  {
    var intermediate := [];
    for i := 0 to |job.files|
      invariant intermediate == Concat(AllEmitted(job)[..i])
    {
      var kva := job.mapf(job.files[i], job.content(job.files[i]));
      assert AllEmitted(job)[..i + 1][..i] == AllEmitted(job)[..i];
      intermediate := intermediate + kva;
    }
    assert AllEmitted(job)[..|job.files|] == AllEmitted(job);
    ByKeyIsOrder();
    var sorted := Sort(intermediate, ByKey);
    lines := GroupReduce(sorted, job.reducef);
  }

  // ----- The system

  /** What a worker is at: asking for a task, a map task with some of its files renamed, a reduce
      task with some of its files read, reporting, or gone. */
  datatype Worker =
    | Idle
    | Mapping(task: RequestTaskReply, renamed: nat)
    | Reducing(task: RequestTaskReply, read: nat, kva: seq<KeyValue>)
    | Reporting(args: RequestTaskArgs)
    | Gone

  /** A task was handed out at a time. */
  datatype Handout = Handout(taskType: TaskType, taskInd: int, time: int)

  /** Besides coordinator, workers, reports and files, the tasks handed out so far. */
  datatype World = World(
    book: Book,
    handouts: seq<Handout>,
    workers: seq<Worker>,
    net: set<RequestTaskArgs>,
    intermediate: map<(nat, nat), seq<KeyValue>>,
    outputs: map<nat, seq<Line>>)

  datatype Step =
    | Ask(w: nat, now: int, lost: bool)
    | RenameIntermediate(w: nat)
    | ReadIntermediate(w: nat)
    | RenameOutput(w: nat, sorted: seq<KeyValue>)
    | Report(w: nat)
    | Deliver(args: RequestTaskArgs, now: int)
    | Crash(w: nat)
    | Spawn

  function Start(job: Job): World {
    World(NewBook(job.files, job.nReduce), [], [], {}, map[], map[])
  }

  function AsksFor(): RequestTaskArgs {
    RequestTaskArgs(Get, Map, 0)
  }

  function SetWorker(world: World, w: nat, worker: Worker): World
    requires w < |world.workers|
  {
    world.(workers := world.workers[w := worker])
  }

  function TakeUp(reply: RequestTaskReply): Worker {
    match reply.taskType
    case Map => Mapping(reply, 0)
    case Reduce => Reducing(reply, 0, [])
    case Wait => Idle
    case Done => Gone
  }

  /** One step; nothing when it cannot be taken. A worker that hears nothing back leaves. A report
      stays deliverable, whatever becomes of who sent it. */
  ghost function Next(job: Job, world: World, step: Step): Option<World>
    requires job.nReduce > 0 && WellKept(world.book)
  {
    match step
    case Ask(w, now, lost) =>
      if w < |world.workers| && world.workers[w].Idle? then
        var (book, reply) := Handle(world.book, AsksFor(), now);
        var handout := if reply.taskType == Map || reply.taskType == Reduce then [Handout(reply.taskType, reply.taskInd, now)] else [];
        Some(SetWorker(world, w, if lost then Gone else TakeUp(reply)).(book := book, handouts := world.handouts + handout))
      else None
    case RenameIntermediate(w) =>
      if w < |world.workers| && world.workers[w].Mapping? then
        var Mapping(task, k) := world.workers[w];
        if k < task.nReduce && task.taskInd >= 0 then
          var content := Bucket(Emitted(job, task.fileName), job.hash, task.nReduce, k);
          Some(SetWorker(world, w, Mapping(task, k + 1)).(intermediate := world.intermediate[(task.taskInd, k) := content]))
        else Some(SetWorker(world, w, Reporting(RequestTaskArgs(Put, Map, task.taskInd))))
      else None
    case ReadIntermediate(w) =>
      if w < |world.workers| && world.workers[w].Reducing? && world.workers[w].read < world.workers[w].task.nMap then
        var Reducing(task, i, kva) := world.workers[w];
        if task.taskInd >= 0 && (i, task.taskInd) in world.intermediate then
          Some(SetWorker(world, w, Reducing(task, i + 1, kva + world.intermediate[(i, task.taskInd)])))
        else Some(SetWorker(world, w, Gone))
      else None
    case RenameOutput(w, sorted) =>
      if w < |world.workers| && world.workers[w].Reducing? && world.workers[w].read >= world.workers[w].task.nMap
         && world.workers[w].task.taskInd >= 0
         && SortedBy(sorted, ByKey) && multiset(sorted) == multiset(world.workers[w].kva) then
        var ind := world.workers[w].task.taskInd;
        Some(SetWorker(world, w, Reporting(RequestTaskArgs(Put, Reduce, ind))).(outputs := world.outputs[ind := Groups(sorted, job.reducef)]))
      else None
    case Report(w) =>
      if w < |world.workers| && world.workers[w].Reporting? then
        Some(SetWorker(world, w, Idle).(net := world.net + {world.workers[w].args}))
      else None
    case Deliver(args, now) =>
      if args in world.net && InRange(world.book, args) then
        Some(world.(book := Handle(world.book, args, now).0))
      else None
    case Crash(w) =>
      if w < |world.workers| then Some(SetWorker(world, w, Gone)) else None
    case Spawn =>
      Some(world.(workers := world.workers + [Idle]))
  }

  // ----- What every step keeps

  ghost predicate MapDone(job: Job, world: World, m: nat) {
    forall r: nat :: r < job.nReduce ==> (m, r) in world.intermediate
  }

  ghost predicate WorkerOk(job: Job, world: World, worker: Worker)
    requires job.nReduce > 0
  {
    match worker
    case Mapping(task, renamed) =>
      && 0 <= task.taskInd < |job.files| && task.fileName == job.files[task.taskInd] && task.nReduce == job.nReduce
      && forall r: nat :: r < renamed && r < job.nReduce ==> (task.taskInd, r) in world.intermediate
    case Reducing(task, read, kva) =>
      && 0 <= task.taskInd < job.nReduce && task.nMap == |job.files| && read <= |job.files|
      && AllFinished(world.book.mapStatus)
      && kva == Concat(BucketOfEach(AllEmitted(job)[..read], job.hash, job.nReduce, task.taskInd))
    case Reporting(args) => ReportOk(job, world, args)
    case _ => true
  }

  ghost predicate ReportOk(job: Job, world: World, args: RequestTaskArgs) {
    && args.requestType == Put
    && match args.taskType
       case Map => 0 <= args.taskInd < |job.files| && MapDone(job, world, args.taskInd)
       case Reduce => 0 <= args.taskInd < job.nReduce && args.taskInd in world.outputs
       case _ => false
  }

  /** The output is a grouping of everything that was emitted for the task. */
  ghost predicate OutputOk(job: Job, r: nat, lines: seq<Line>)
    requires job.nReduce > 0
  {
    exists sorted :: SortsOutput(job, r, sorted, lines)
  }

  ghost predicate SortsOutput(job: Job, r: nat, sorted: seq<KeyValue>, lines: seq<Line>)
    requires job.nReduce > 0
  {
    && SortedBy(sorted, ByKey)
    && multiset(sorted) == multiset(Concat(BucketOfEach(AllEmitted(job), job.hash, job.nReduce, r)))
    && lines == Groups(sorted, job.reducef)
  }

  ghost predicate BookOk(job: Job, world: World) {
    && WellKept(world.book) && world.book.files == job.files && |world.book.reduceStatus| == job.nReduce
    && (forall m :: 0 <= m < |job.files| && world.book.mapStatus[m] == Finished ==> MapDone(job, world, m))
    && (forall r :: 0 <= r < job.nReduce && world.book.reduceStatus[r] == Finished ==> r in world.outputs)
    && (world.book.isDone ==> AllFinished(world.book.mapStatus) && AllFinished(world.book.reduceStatus))
  }

  ghost predicate Inv(job: Job, world: World)
    requires job.nReduce > 0
  {
    && BookOk(job, world)
    && (forall w :: 0 <= w < |world.workers| ==> WorkerOk(job, world, world.workers[w]))
    && (forall args :: args in world.net ==> ReportOk(job, world, args))
    && (forall f: (nat, nat) :: f in world.intermediate ==> f.0 < |job.files| && world.intermediate[f] == Intermediate(job, f.0, f.1))
    && (forall r :: r in world.outputs ==> OutputOk(job, r, world.outputs[r]))
  }

  /** Files only appear and finished tasks stay finished: nothing said about a worker or a report
      becomes wrong. */
  lemma StaysOk(job: Job, a: World, b: World, worker: Worker)
    requires job.nReduce > 0 && WorkerOk(job, a, worker)
    requires a.intermediate.Keys <= b.intermediate.Keys && a.outputs.Keys <= b.outputs.Keys
    requires AllFinished(a.book.mapStatus) ==> AllFinished(b.book.mapStatus)
    ensures WorkerOk(job, b, worker)
  {
    hide AllFinished, Concat, BucketOfEach;
    if worker.Reporting? { ReportStaysOk(job, a, b, worker.args); }
  }

  lemma ReportStaysOk(job: Job, a: World, b: World, args: RequestTaskArgs)
    requires ReportOk(job, a, args) && a.intermediate.Keys <= b.intermediate.Keys && a.outputs.Keys <= b.outputs.Keys
    ensures ReportOk(job, b, args)
  {
  }

  /** Everything but the book and the new or changed files and workers is as before. */
  lemma RestStaysOk(job: Job, a: World, b: World)
    requires job.nReduce > 0 && Inv(job, a) && BookOk(job, b)
    requires a.intermediate.Keys <= b.intermediate.Keys && a.outputs.Keys <= b.outputs.Keys
    requires AllFinished(a.book.mapStatus) ==> AllFinished(b.book.mapStatus)
    requires forall w :: 0 <= w < |b.workers| ==> b.workers[w] in a.workers || WorkerOk(job, b, b.workers[w])
    requires forall args :: args in b.net ==> args in a.net || ReportOk(job, b, args)
    requires forall f: (nat, nat) :: f in b.intermediate ==>
               (f in a.intermediate && b.intermediate[f] == a.intermediate[f])
               || (f.0 < |job.files| && b.intermediate[f] == Intermediate(job, f.0, f.1))
    requires forall r :: r in b.outputs ==> (r in a.outputs && b.outputs[r] == a.outputs[r]) || OutputOk(job, r, b.outputs[r])
    ensures Inv(job, b)
  {
    hide AllFinished, OutputOk, BookOk, WorkerOk, ReportOk, Intermediate;
    forall w | 0 <= w < |b.workers| ensures WorkerOk(job, b, b.workers[w]) {
      if b.workers[w] in a.workers {
        var v :| 0 <= v < |a.workers| && a.workers[v] == b.workers[w];
        StaysOk(job, a, b, a.workers[v]);
      }
    }
    forall args | args in b.net ensures ReportOk(job, b, args) {
      if args in a.net { ReportStaysOk(job, a, b, args); }
    }
  }

  /** What a worker may be told when it asks for a task. */
  lemma GoodReply(b: Book, now: int)
    requires WellKept(b)
    ensures var (b', reply) := Handle(b, AsksFor(), now);
            && b'.files == b.files && |b'.reduceStatus| == |b.reduceStatus|
            && reply.taskInd >= 0
            && (reply.taskType == Map ==> reply.taskInd < |b.files| && reply.fileName == b.files[reply.taskInd] && reply.nReduce == |b.reduceStatus|)
            && (reply.taskType == Reduce ==>
                  reply.taskInd < |b.reduceStatus| && reply.nMap == |b.files| && AllFinished(b.mapStatus) && AllFinished(b'.mapStatus))
  {
  }

  /** Whatever is asked or truly reported, the book stays right. */
  lemma BookStaysOk(job: Job, a: World, b: World, args: RequestTaskArgs, now: int)
    requires job.nReduce > 0 && BookOk(job, a) && InRange(a.book, args)
    requires args.requestType == Get || ReportOk(job, a, args)
    requires b.book == Handle(a.book, args, now).0 && b.intermediate == a.intermediate && b.outputs == a.outputs
    ensures BookOk(job, b)
    ensures AllFinished(a.book.mapStatus) ==> AllFinished(b.book.mapStatus)
  {
    FinishedStays(a.book, args, now);
    hide Handle;
    forall m | 0 <= m < |job.files| && b.book.mapStatus[m] == Finished ensures MapDone(job, b, m) {
      assert a.book.mapStatus[m] == Finished || args == RequestTaskArgs(Put, Map, m);
      assert MapDone(job, a, m);
    }
  }

  lemma AskKeeps(job: Job, world: World, step: Step)
    requires job.nReduce > 0 && Inv(job, world) && step.Ask? && Next(job, world, step).Some?
    ensures Inv(job, Next(job, world, step).value)
  {
    var next := Next(job, world, step).value;
    GoodReply(world.book, step.now);
    BookStaysOk(job, world, next, AsksFor(), step.now);
    assert AllEmitted(job)[..0] == [];
    assert BucketOfEach([], job.hash, job.nReduce, 0) == [];
    hide Handle, BookOk, AllFinished;
    assert WorkerOk(job, next, next.workers[step.w]);
    RestStaysOk(job, world, next);
  }

  lemma RenameKeeps(job: Job, world: World, step: Step)
    requires job.nReduce > 0 && Inv(job, world) && step.RenameIntermediate? && Next(job, world, step).Some?
    ensures Inv(job, Next(job, world, step).value)
  {
    var next := Next(job, world, step).value;
    assert WorkerOk(job, world, world.workers[step.w]);
    BookOkWithFiles(job, world, next);
    hide BookOk, AllFinished, OutputOk;
    assert WorkerOk(job, next, next.workers[step.w]);
    RestStaysOk(job, world, next);
  }

  lemma BookOkWithFiles(job: Job, a: World, b: World)
    requires BookOk(job, a) && b.book == a.book
    requires a.intermediate.Keys <= b.intermediate.Keys && a.outputs.Keys <= b.outputs.Keys
    ensures BookOk(job, b)
  {
    forall m | 0 <= m < |job.files| && b.book.mapStatus[m] == Finished ensures MapDone(job, b, m) {
      assert MapDone(job, a, m);
    }
  }

  /** A reduce worker finds every intermediate file in its place, with the right contents. */
  lemma FilesAreThere(job: Job, world: World, w: nat)
    requires job.nReduce > 0 && Inv(job, world) && w < |world.workers| && world.workers[w].Reducing?
    ensures forall m: nat :: m < |job.files| ==>
              && (m, world.workers[w].task.taskInd) in world.intermediate
              && world.intermediate[(m, world.workers[w].task.taskInd)] == Intermediate(job, m, world.workers[w].task.taskInd)
  {
    assert WorkerOk(job, world, world.workers[w]);
    forall m: nat | m < |job.files| ensures (m, world.workers[w].task.taskInd) in world.intermediate {
      assert world.book.mapStatus[m] == Finished;
      assert MapDone(job, world, m);
    }
  }

  lemma {:induction false} OneMorePart(parts: seq<seq<KeyValue>>, i: nat, hash: Hash, n: nat, r: nat)
    requires n > 0 && i < |parts|
    ensures Concat(BucketOfEach(parts[..i + 1], hash, n, r)) == Concat(BucketOfEach(parts[..i], hash, n, r)) + Bucket(parts[i], hash, n, r)
  {
    var b := BucketOfEach(parts[..i + 1], hash, n, r);
    assert b[..i] == BucketOfEach(parts[..i], hash, n, r);
  }

  lemma ReadKeeps(job: Job, world: World, step: Step)
    requires job.nReduce > 0 && Inv(job, world) && step.ReadIntermediate? && Next(job, world, step).Some?
    ensures Inv(job, Next(job, world, step).value)
  {
    var next := Next(job, world, step).value;
    var Reducing(task, i, kva) := world.workers[step.w];
    assert WorkerOk(job, world, world.workers[step.w]);
    FilesAreThere(job, world, step.w);
    OneMorePart(AllEmitted(job), i, job.hash, job.nReduce, task.taskInd);
    BookOkWithFiles(job, world, next);
    hide BookOk, AllFinished, OutputOk, Concat, BucketOfEach;
    assert WorkerOk(job, next, next.workers[step.w]);
    RestStaysOk(job, world, next);
  }

  /** A worker that has read all its files holds everything emitted for its task. */
  lemma {:induction false} SortedIsOutput(job: Job, world: World, w: nat, sorted: seq<KeyValue>)
    requires job.nReduce > 0 && w < |world.workers| && world.workers[w].Reducing? && WorkerOk(job, world, world.workers[w])
    requires world.workers[w].read >= world.workers[w].task.nMap
    requires SortedBy(sorted, ByKey) && multiset(sorted) == multiset(world.workers[w].kva)
    ensures OutputOk(job, world.workers[w].task.taskInd, Groups(sorted, job.reducef))
  {
    hide Concat, BucketOfEach, AllFinished, SortedBy;
    assert AllEmitted(job)[..world.workers[w].read] == AllEmitted(job);
    assert SortsOutput(job, world.workers[w].task.taskInd, sorted, Groups(sorted, job.reducef));
  }

  lemma OutputKeeps(job: Job, world: World, step: Step)
    requires job.nReduce > 0 && Inv(job, world) && step.RenameOutput? && Next(job, world, step).Some?
    ensures Inv(job, Next(job, world, step).value)
  {
    hide AllFinished, OutputOk, Concat, BucketOfEach, MapDone, SortedBy;
    var next := Next(job, world, step).value;
    assert WorkerOk(job, world, world.workers[step.w]);
    SortedIsOutput(job, world, step.w, step.sorted);
    BookOkWithFiles(job, world, next);
    hide BookOk;
    assert WorkerOk(job, next, next.workers[step.w]);
    RestStaysOk(job, world, next);
  }

  lemma NextKeeps(job: Job, world: World, step: Step)
    requires job.nReduce > 0 && Inv(job, world) && Next(job, world, step).Some?
    ensures Inv(job, Next(job, world, step).value)
  {
    match step
    case Ask(_, _, _) => AskKeeps(job, world, step);
    case RenameIntermediate(_) => RenameKeeps(job, world, step);
    case ReadIntermediate(_) => ReadKeeps(job, world, step);
    case RenameOutput(_, _) => OutputKeeps(job, world, step);
    case _ => OthersKeep(job, world, step);
  }

  lemma OthersKeep(job: Job, world: World, step: Step)
    requires job.nReduce > 0 && Inv(job, world) && Next(job, world, step).Some?
    requires step.Report? || step.Deliver? || step.Crash? || step.Spawn?
    ensures Inv(job, Next(job, world, step).value)
  {
    hide AllFinished, OutputOk, Concat, BucketOfEach, Handle, MapDone;
    var next := Next(job, world, step).value;
    if step.Deliver? {
      BookStaysOk(job, world, next, step.args, step.now);
    } else {
      BookOkWithFiles(job, world, next);
      if step.Report? {
        assert WorkerOk(job, world, world.workers[step.w]);
        ReportStaysOk(job, world, next, world.workers[step.w].args);
      }
    }
    hide BookOk, InRange;
    RestStaysOk(job, world, next);
  }

  // ----- Every run

  ghost function Execute(job: Job, steps: seq<Step>): (r: Option<World>)
    requires job.nReduce > 0
    ensures r.Some? ==> WellKept(r.value.book)
  {
    if steps == [] then Some(Start(job)) else
      match Execute(job, steps[..|steps| - 1])
      case None => None
      case Some(world) =>
        var next := Next(job, world, steps[|steps| - 1]);
        if next.Some? then KeepsWell(job, world, steps[|steps| - 1]); next else None
  }

  lemma KeepsWell(job: Job, world: World, step: Step)
    requires job.nReduce > 0 && WellKept(world.book) && Next(job, world, step).Some?
    ensures var b, b' := world.book, Next(job, world, step).value.book;
            && WellKept(b') && |b'.mapStatus| == |b.mapStatus| && |b'.reduceStatus| == |b.reduceStatus|
            && (forall i :: 0 <= i < |b.mapStatus| && b.mapStatus[i] == Finished ==> b'.mapStatus[i] == Finished)
            && (forall i :: 0 <= i < |b.reduceStatus| && b.reduceStatus[i] == Finished ==> b'.reduceStatus[i] == Finished)
            && (b.isDone ==> b'.isDone)
  {
    hide Handle;
    match step
    case Ask(w, now, lost) => FinishedStays(world.book, AsksFor(), now);
    case Deliver(args, now) => FinishedStays(world.book, args, now);
    case _ =>
  }

  lemma {:induction false} EveryRunKeeps(job: Job, steps: seq<Step>)
    requires job.nReduce > 0 && Execute(job, steps).Some?
    ensures Inv(job, Execute(job, steps).value)
  {
    if steps != [] {
      var front := steps[..|steps| - 1];
      EveryRunKeeps(job, front);
      NextKeeps(job, Execute(job, front).value, steps[|steps| - 1]);
    }
  }

  /** A task once finished, and a job once done, is so ever after. */
  lemma {:induction false} FinishedForever(job: Job, steps: seq<Step>, k: nat)
    requires job.nReduce > 0 && Execute(job, steps).Some? && k <= |steps|
    ensures Execute(job, steps[..k]).Some?
    ensures var b, b' := Execute(job, steps[..k]).value.book, Execute(job, steps).value.book;
            && |b'.mapStatus| == |b.mapStatus| && |b'.reduceStatus| == |b.reduceStatus|
            && (forall i :: 0 <= i < |b.mapStatus| && b.mapStatus[i] == Finished ==> b'.mapStatus[i] == Finished)
            && (forall i :: 0 <= i < |b.reduceStatus| && b.reduceStatus[i] == Finished ==> b'.reduceStatus[i] == Finished)
            && (b.isDone ==> b'.isDone)
    decreases |steps|
  {
    if k == |steps| {
      assert steps[..k] == steps;
    } else {
      var front := steps[..|steps| - 1];
      FinishedForever(job, front, k);
      assert front[..k] == steps[..k];
      KeepsWell(job, Execute(job, front).value, steps[|steps| - 1]);
    }
  }

  /** When a reduce task is handed out, all its intermediate files are there and right. */
  lemma {:induction false} ReduceFindsFiles(job: Job, steps: seq<Step>, now: int)
    requires job.nReduce > 0 && Execute(job, steps).Some?
    ensures var world := Execute(job, steps).value;
            var reply := Handle(world.book, AsksFor(), now).1;
            reply.taskType == Reduce ==>
              forall m: nat, r: nat :: m < |job.files| && r < job.nReduce ==>
                (m, r) in world.intermediate && world.intermediate[(m, r)] == Intermediate(job, m, r)
  {
    EveryRunKeeps(job, steps);
    var world := Execute(job, steps).value;
    GoodReply(world.book, now);
    hide Handle;
    if AllFinished(world.book.mapStatus) {
      forall m: nat, r: nat | m < |job.files| && r < job.nReduce ensures (m, r) in world.intermediate {
        assert world.book.mapStatus[m] == Finished;
        assert MapDone(job, world, m);
      }
    }
  }

  /** The contents of the first n output files. */
  function OutputsBelow(world: World, n: nat): (outs: seq<seq<Line>>)
    requires forall r: nat :: r < n ==> r in world.outputs
    ensures |outs| == n && forall r :: 0 <= r < n ==> outs[r] == world.outputs[r]
  {
    seq(n, r requires 0 <= r < n => world.outputs[r])
  }

  lemma OutputsWereSorted(job: Job, world: World, n: nat) returns (buckets: seq<seq<KeyValue>>)
    requires job.nReduce > 0 && n <= job.nReduce && forall r: nat :: r < n ==> r in world.outputs
    requires forall r :: r in world.outputs ==> OutputOk(job, r, world.outputs[r])
    ensures |buckets| == n
    ensures forall r: nat :: r < n ==> SortsOutput(job, r, buckets[r], OutputsBelow(world, n)[r])
  {
    hide SortsOutput;
    if n == 0 {
      buckets := [];
    } else {
      var before := OutputsWereSorted(job, world, n - 1);
      assert OutputOk(job, n - 1, world.outputs[n - 1]);
      var bucket :| SortsOutput(job, n - 1, bucket, world.outputs[n - 1]);
      buckets := before + [bucket];
    }
  }

  /** Once the job is done every output file is there, and together they hold exactly the lines
      that the sequential program writes. */
  lemma {:induction false} DoneIsSequential(job: Job, steps: seq<Step>, sorted: seq<KeyValue>)
    requires Proper(job) && Execute(job, steps).Some? && Execute(job, steps).value.book.isDone
    requires SortedBy(sorted, ByKey) && multiset(sorted) == multiset(Concat(AllEmitted(job)))
    ensures var world := Execute(job, steps).value;
            && (forall r: nat :: r < job.nReduce ==> r in world.outputs)
            && multiset(Concat(OutputsBelow(world, job.nReduce))) == multiset(Groups(sorted, job.reducef))
  {
    EveryRunKeeps(job, steps);
    var world := Execute(job, steps).value;
    hide Execute;
    var buckets := OutputsWereSorted(job, world, job.nReduce);
    hide Inv, OutputsBelow, Concat, Groups, BucketOfEach, OrderFree, SortedBy, AllEmitted;
    BucketedEqualsSequential(AllEmitted(job), job.reducef, job.hash, job.nReduce, buckets, OutputsBelow(world, job.nReduce), sorted);
  }
}
