/** How the coordinator shares out time: no task is given to a second worker within ten seconds, and
    nobody waits while a task is due. */
module Handouts {
  import opened Linearizability
  import opened Coordinator
  import opened MapReduce

  /** The phase's status and handout time of a task, if there is such a task. */
  predicate HasTask(b: Book, h: Handout) {
    0 <= h.taskInd < if h.taskType == Map then |b.mapStatus| else |b.reduceStatus|
  }

  function StatusOf(b: Book, h: Handout): TaskStatus
    requires WellKept(b) && HasTask(b, h)
  {
    if h.taskType == Map then b.mapStatus[h.taskInd] else b.reduceStatus[h.taskInd]
  }

  function TimeOf(b: Book, h: Handout): int
    requires WellKept(b) && HasTask(b, h)
  {
    if h.taskType == Map then b.mapHandoutTime[h.taskInd] else b.reduceHandoutTime[h.taskInd]
  }

  predicate SameTask(a: Handout, b: Handout) {
    a.taskType == b.taskType && a.taskInd == b.taskInd
  }

  /** The book remembers that the task was handed out, and when last. */
  ghost predicate Remembered(b: Book, h: Handout)
    requires WellKept(b)
  {
    (h.taskType == Map || h.taskType == Reduce) && HasTask(b, h) && StatusOf(b, h) != InStore && h.time <= TimeOf(b, h)
  }

  ghost predicate Spaced(handouts: seq<Handout>) {
    forall i, j :: 0 <= i < j < |handouts| && SameTask(handouts[i], handouts[j]) ==> handouts[j].time - handouts[i].time > 10
  }

  ghost predicate Timely(world: World) {
    && WellKept(world.book)
    && (forall i :: 0 <= i < |world.handouts| ==> Remembered(world.book, world.handouts[i]))
    && Spaced(world.handouts)
  }

  /** A new handout comes more than ten seconds after every earlier one of its task. */
  lemma AskKeepsTimely(job: Job, world: World, step: Step)
    requires job.nReduce > 0 && Timely(world) && step.Ask? && Next(job, world, step).Some?
    ensures Timely(Next(job, world, step).value)
  {
    var next := Next(job, world, step).value;
    AskingMeans(world.book, AsksFor(), step.now);
    KeepsWell(job, world, step);
    hide Handle;
    forall i | 0 <= i < |world.handouts| ensures Remembered(next.book, world.handouts[i]) {
      assert Remembered(world.book, world.handouts[i]);
    }
  }

  lemma ReportKeepsTimely(job: Job, world: World, step: Step)
    requires job.nReduce > 0 && Timely(world) && step.Deliver? && Next(job, world, step).Some?
    ensures Timely(Next(job, world, step).value)
  {
    var next := Next(job, world, step).value;
    if step.args.requestType == Put {
      ReportingMeans(world.book, step.args, step.now);
    } else {
      AskingMeans(world.book, step.args, step.now);
    }
    KeepsWell(job, world, step);
    hide Handle;
    forall i | 0 <= i < |world.handouts| ensures Remembered(next.book, world.handouts[i]) {
      assert Remembered(world.book, world.handouts[i]);
    }
  }

  lemma {:induction false} EveryRunTimely(job: Job, steps: seq<Step>)
    requires job.nReduce > 0 && Execute(job, steps).Some?
    ensures Timely(Execute(job, steps).value)
  {
    if steps != [] {
      var front, step := steps[..|steps| - 1], steps[|steps| - 1];
      var world := Execute(job, front).value;
      EveryRunTimely(job, front);
      if step.Ask? {
        AskKeepsTimely(job, world, step);
      } else if step.Deliver? {
        ReportKeepsTimely(job, world, step);
      }
    }
  }

  /** In every run, whatever times the coordinator reads, two handouts of one task are more than ten
      seconds apart. */
  lemma HandoutsApart(job: Job, steps: seq<Step>, i: nat, j: nat)
    requires job.nReduce > 0 && Execute(job, steps).Some?
    requires var handouts := Execute(job, steps).value.handouts;
             i < j < |handouts| && handouts[i].taskType == handouts[j].taskType && handouts[i].taskInd == handouts[j].taskInd
    ensures var handouts := Execute(job, steps).value.handouts;
            handouts[j].time - handouts[i].time > 10
  {
    EveryRunTimely(job, steps);
  }
}
