/** The task queue around the worker: visibility timeouts, redelivery and the dead-letter
    queue. Retention expiry is not modelled. */
module Redelivery {
  import opened TaskQueueWorker

  datatype Place = Queued | InFlight | Gone | DeadLettered

  datatype Task = Task(body: Body, place: Place, receives: nat)

  /** A received copy, in a worker's hands. */
  datatype Copy = Copy(id: nat, receipt: nat)

  /** The queue allows `max` receives of a message. The number of handler calls is history. */
  datatype Queue = Queue(max: nat, tasks: seq<Task>, copies: set<Copy>, calls: nat)

  datatype Action =
    | Send(body: Body)
    | Receive(id: nat)
    | Lapse(id: nat)                    // the visibility timeout passes
    | Redrive(id: nat)
    | Handling(copy: Copy, oracle: Oracle)
    | Drop(copy: Copy)                  // the worker stops before it handles the copy

  predicate Enabled(q: Queue, act: Action) {
    match act
    case Send(_) => true
    case Receive(id) => id < |q.tasks| && q.tasks[id].place.Queued? && q.tasks[id].receives < q.max
    case Lapse(id) => id < |q.tasks| && q.tasks[id].place.InFlight?
    case Redrive(id) => id < |q.tasks| && q.tasks[id].place.Queued? && q.tasks[id].receives >= q.max
    case Handling(copy, _) => copy in q.copies && copy.id < |q.tasks|
    case Drop(copy) => copy in q.copies
  }

  function Put(q: Queue, id: nat, task: Task): Queue
    requires id < |q.tasks|
  {
    q.(tasks := q.tasks[id := task])
  }

  /** Handling the copy deletes its message. */
  predicate Deletes(body: Body, copy: Copy, oracle: Oracle) {
    exists event <- Handle(Message(copy.receipt, body), oracle).events :: event.Deleted? && event.done
  }

  function Step(q: Queue, act: Action): Queue
    requires Enabled(q, act)
  {
    match act
    case Send(body) => q.(tasks := q.tasks + [Task(body, Queued, 0)])
    case Receive(id) =>
      var task := q.tasks[id];
      Put(q, id, task.(place := InFlight, receives := task.receives + 1)).(copies := q.copies
        + {Copy(id, task.receives + 1)})
    case Lapse(id) => Put(q, id, q.tasks[id].(place := Queued))
    case Redrive(id) => Put(q, id, q.tasks[id].(place := DeadLettered))
    case Handling(copy, oracle) =>
      var task := q.tasks[copy.id];
      var deleted := Deletes(task.body, copy, oracle) && !task.place.DeadLettered?;
      Put(q, copy.id, if deleted then task.(place := Gone)
          else task).(copies := q.copies - {copy}, calls := q.calls + 1)
    case Drop(copy) => q.(copies := q.copies - {copy})
  }

  predicate Init(q: Queue) {
    q.tasks == [] && q.copies == {} && q.calls == 0
  }

  predicate IsRun(queues: seq<Queue>, acts: seq<Action>) {
    && |queues| == |acts| + 1 && Init(queues[0])
    && forall i | 0 <= i < |acts| :: Enabled(queues[i], acts[i]) && queues[i + 1] == Step(queues[i], acts[i])
  }

  // ---- Bounded redelivery ----

  /** The receives left to all messages together. */
  function Left(tasks: seq<Task>, max: nat): int {
    if tasks == [] then 0 else Left(tasks[..|tasks| - 1], max) + max - tasks[|tasks| - 1].receives
  }

  lemma {:induction false} LeftUpdate(tasks: seq<Task>, max: nat, id: nat, task: Task)
    requires id < |tasks|
    ensures Left(tasks[id := task], max) == Left(tasks, max) + tasks[id].receives - task.receives
  {
    var n := |tasks| - 1;
    if id < n {
      assert tasks[id := task][..n] == tasks[..n][id := task];
      LeftUpdate(tasks[..n], max, id, task);
    } else {
      assert tasks[id := task][..n] == tasks[..n];
    }
  }

  lemma {:induction false} LeftIsNatural(tasks: seq<Task>, max: nat)
    requires forall task <- tasks :: task.receives <= max
    ensures 0 <= Left(tasks, max)
  {
    if tasks != [] {
      assert forall task <- tasks[..|tasks| - 1] :: task in tasks;
      assert tasks[|tasks| - 1] in tasks;
      LeftIsNatural(tasks[..|tasks| - 1], max);
    }
  }

  /** A receive uses up one of them; nothing else but a new message changes their number. */
  lemma StepChangesLeft(q: Queue, act: Action)
    requires Enabled(q, act)
    ensures Left(Step(q, act).tasks, q.max) == Left(q.tasks, q.max)
      + if act.Receive? then -1 else if act.Send? then q.max else 0
  {
    match act
    case Send(body) =>
      assert (q.tasks + [Task(body, Queued, 0)])[..|q.tasks|] == q.tasks;
    case Receive(id) => LeftUpdate(q.tasks, q.max, id, Step(q, act).tasks[id]);
    case Lapse(id) => LeftUpdate(q.tasks, q.max, id, Step(q, act).tasks[id]);
    case Redrive(id) => LeftUpdate(q.tasks, q.max, id, Step(q, act).tasks[id]);
    case Handling(copy, _) => LeftUpdate(q.tasks, q.max, copy.id, Step(q, act).tasks[copy.id]);
    case Drop(_) =>
  }

  predicate TaskOk(task: Task, max: nat) {
    task.receives <= max && (!Reportable(task.body) ==> !task.place.Gone?)
  }

  predicate CopyOk(q: Queue, copy: Copy) {
    copy.id < |q.tasks| && copy.receipt <= q.tasks[copy.id].receives
  }

  predicate Inv(q: Queue) {
    && (forall id | 0 <= id < |q.tasks| :: TaskOk(q.tasks[id], q.max))
    && (forall copy <- q.copies :: CopyOk(q, copy))
    && Covered(q)
  }

  /** A body without a token makes the worker call nothing, and so delete nothing. */
  lemma PoisonDeletesNothing(body: Body, copy: Copy, oracle: Oracle)
    requires !Reportable(body)
    ensures !Deletes(body, copy, oracle)
  {
  }

  lemma StepKeepsTasks(q: Queue, act: Action, id: nat)
    requires Inv(q) && Enabled(q, act) && id < |Step(q, act).tasks|
    ensures TaskOk(Step(q, act).tasks[id], q.max)
  {
    assert id < |q.tasks| ==> TaskOk(q.tasks[id], q.max);
    if act.Handling? && !Reportable(q.tasks[act.copy.id].body) {
      PoisonDeletesNothing(q.tasks[act.copy.id].body, act.copy, act.oracle);
    }
  }

  lemma StepKeepsCopies(q: Queue, act: Action, copy: Copy)
    requires Inv(q) && Enabled(q, act) && copy in Step(q, act).copies
    ensures CopyOk(Step(q, act), copy)
  {
    assert copy in q.copies ==> CopyOk(q, copy);
  }

  lemma StepChangesTotals(q: Queue, act: Action)
    requires Enabled(q, act)
    ensures Step(q, act).max == q.max
    ensures |Step(q, act).tasks| == |q.tasks| + if act.Send? then 1 else 0
    ensures Step(q, act).calls == q.calls + if act.Handling? then 1 else 0
  {
  }

  /** Each receive is paid for: the calls made, the copies out and the receives left together
      never exceed what the messages were allowed. */
  predicate Covered(q: Queue) {
    q.calls + |q.copies| + Left(q.tasks, q.max) <= |q.tasks| * q.max
  }

  lemma StepKeepsCovered(q: Queue, act: Action)
    requires Inv(q) && Enabled(q, act)
    ensures Covered(Step(q, act))
  {
    StepChangesTotals(q, act);
    StepChangesLeft(q, act);
    CopiesStep(q, act);
    assert (|q.tasks| + 1) * q.max == |q.tasks| * q.max + q.max;
  }

  lemma StepKeepsInv(q: Queue, act: Action)
    requires Inv(q) && Enabled(q, act)
    ensures Inv(Step(q, act))
  {
    var q' := Step(q, act);
    StepChangesTotals(q, act);
    StepKeepsCovered(q, act);
    forall id | 0 <= id < |q'.tasks| ensures TaskOk(q'.tasks[id], q'.max) {
      StepKeepsTasks(q, act, id);
    }
    forall copy <- q'.copies ensures CopyOk(q', copy) {
      StepKeepsCopies(q, act, copy);
    }
  }

  /** A receive hands out one new copy; handling or dropping a copy takes it back. */
  lemma CopiesStep(q: Queue, act: Action)
    requires Inv(q) && Enabled(q, act)
    ensures |Step(q, act).copies| == |q.copies| + if act.Receive? then 1 else if act.Handling?
      || act.Drop? then -1 else 0
  {
    if act.Receive? {
      var copy := Copy(act.id, q.tasks[act.id].receives + 1);
      assert !CopyOk(q, copy);
    }
  }

  lemma {:induction false} RunKeepsInv(queues: seq<Queue>, acts: seq<Action>, i: nat)
    requires IsRun(queues, acts) && i < |queues|
    ensures Inv(queues[i])
  {
    if i > 0 {
      RunKeepsInv(queues, acts, i - 1);
      assert Enabled(queues[i - 1], acts[i - 1]);
      StepKeepsInv(queues[i - 1], acts[i - 1]);
    } else {
      assert Left([], queues[0].max) == 0;
    }
  }

  /** However messages are received, lapse and are handled, n messages cause at most n times
      the allowed receives of handler calls. */
  lemma BoundedHandlerCalls(queues: seq<Queue>, acts: seq<Action>, i: nat)
    requires IsRun(queues, acts) && i < |queues|
    ensures queues[i].calls <= |queues[i].tasks| * queues[i].max
  {
    RunKeepsInv(queues, acts, i);
    LeftIsNatural(queues[i].tasks, queues[i].max);
  }

  // ---- Every run brings a message to rest ----

  /** The queue moves the message: hands it out, takes it back or puts it aside. */
  predicate MovesMessage(act: Action, id: nat) {
    (act.Receive? || act.Lapse? || act.Redrive?) && act.id == id
  }

  function MovesOf(acts: seq<Action>, id: nat): nat {
    if acts == [] then 0
    else MovesOf(acts[..|acts| - 1], id) + if MovesMessage(acts[|acts| - 1], id) then 1 else 0
  }

  /** How often the message can still be moved. */
  function Rest(task: Task, max: nat): int {
    if task.place.Gone? || task.place.DeadLettered? then 0
    else 2 * (max - task.receives) + if task.place.InFlight? then 2 else 1
  }

  lemma StepUsesRest(q: Queue, act: Action, id: nat)
    requires Inv(q) && Enabled(q, act) && id < |q.tasks|
    ensures Rest(Step(q, act).tasks[id], q.max) + (if MovesMessage(act, id) then 1 else 0) <= Rest(q.tasks[id], q.max)
  {
    assert TaskOk(q.tasks[id], q.max);
  }

  lemma NewMessageRest(q: Queue, act: Action, id: nat)
    requires Enabled(q, act) && |q.tasks| <= id < |Step(q, act).tasks|
    ensures act.Send? && Rest(Step(q, act).tasks[id], q.max) == 2 * q.max + 1
  {
    StepChangesTotals(q, act);
  }

  lemma MovesOfSnoc(acts: seq<Action>, i: nat, id: nat)
    requires i < |acts|
    ensures MovesOf(acts[..i + 1], id) == MovesOf(acts[..i], id) + if MovesMessage(acts[i], id) then 1 else 0
  {
    assert acts[..i + 1][..i] == acts[..i];
  }

  /** The moves already made and those still possible. */
  function Budget(queues: seq<Queue>, acts: seq<Action>, i: nat, id: nat): int
    requires i < |queues| && i <= |acts| && id < |queues[i].tasks|
  {
    MovesOf(acts[..i], id) + Rest(queues[i].tasks[id], queues[i].max)
  }

  lemma StepKeepsBudget(queues: seq<Queue>, acts: seq<Action>, i: nat, id: nat)
    requires IsRun(queues, acts) && i < |acts| && id < |queues[i].tasks|
    ensures id < |queues[i + 1].tasks| && queues[i + 1].max == queues[i].max
    ensures Budget(queues, acts, i + 1, id) <= Budget(queues, acts, i, id)
  {
    RunKeepsInv(queues, acts, i);
    assert Enabled(queues[i], acts[i]) && queues[i + 1] == Step(queues[i], acts[i]);
    MovesOfSnoc(acts, i, id);
    StepUsesRest(queues[i], acts[i], id);
    StepChangesTotals(queues[i], acts[i]);
  }

  lemma NewMessageBudget(queues: seq<Queue>, acts: seq<Action>, i: nat, id: nat)
    requires IsRun(queues, acts) && i < |acts| && |queues[i].tasks| <= id < |queues[i + 1].tasks|
    ensures Budget(queues, acts, i + 1, id) == 2 * queues[i + 1].max + 1
  {
    assert Enabled(queues[i], acts[i]) && queues[i + 1] == Step(queues[i], acts[i]);
    NeverMovedBefore(queues, acts, i, id);
    MovesOfSnoc(acts, i, id);
    NewMessageRest(queues[i], acts[i], id);
  }

  /** The report that the task's end calls for, and the deletion after it, complete. */
  predicate ReportCompletes(oracle: Oracle) {
    match oracle.dispatch
    case Output(_) => oracle.success.Completes? && oracle.successDelete.Completes?
    case Raises(e) => ErrorOf(e).Some? && oracle.failure.Completes? && oracle.failureDelete.Completes?
  }

  /** Handling a copy of a message whose task returns, every call completing, deletes the message,
      unless the queue has put it aside, and so does one whose failure is reported. */
  lemma ReportedIsDeleted(q: Queue, copy: Copy, oracle: Oracle)
    requires Enabled(q, Action.Handling(copy, oracle)) && Reportable(q.tasks[copy.id].body)
    requires !q.tasks[copy.id].place.DeadLettered?
    requires ReportCompletes(oracle)
    ensures Step(q, Action.Handling(copy, oracle)).tasks[copy.id].place.Gone?
  {
    var m := Message(copy.receipt, q.tasks[copy.id].body);
    HandleReports(m, oracle);
    var events := Handle(m, oracle).events;
    assert events[1].Deleted? && events[1].done;
  }

  /** A deleted message stays deleted and is never received again. */
  lemma {:induction false} GoneStays(queues: seq<Queue>, acts: seq<Action>, i: nat, j: nat, id: nat)
    requires IsRun(queues, acts) && i <= j < |queues| && id < |queues[i].tasks| && queues[i].tasks[id].place.Gone?
    ensures id < |queues[j].tasks| && queues[j].tasks[id].place.Gone?
    ensures j < |acts| ==> acts[j] != Receive(id)
    decreases j
  {
    if i < j {
      GoneStays(queues, acts, i, j - 1, id);
      assert Enabled(queues[j - 1], acts[j - 1]) && queues[j] == Step(queues[j - 1], acts[j - 1]);
    }
    assert j < |acts| ==> Enabled(queues[j], acts[j]);
  }

  /** In every run the queue moves a message at most twice per allowed receive, and once more. */
  lemma {:induction false} MovesAreBounded(queues: seq<Queue>, acts: seq<Action>, i: nat, id: nat)
    requires IsRun(queues, acts) && i < |queues| && id < |queues[i].tasks|
    ensures MovesOf(acts[..i], id) + Rest(queues[i].tasks[id], queues[i].max) <= 2 * queues[i].max + 1
    decreases i
  {
    if i == 0 {
    } else if id < |queues[i - 1].tasks| {
      MovesAreBounded(queues, acts, i - 1, id);
      StepKeepsBudget(queues, acts, i - 1, id);
    } else {
      NewMessageBudget(queues, acts, i - 1, id);
    }
  }

  lemma {:induction false} NeverMovedBefore(queues: seq<Queue>, acts: seq<Action>, i: nat, id: nat)
    requires IsRun(queues, acts) && i < |queues| && id >= |queues[i].tasks|
    ensures MovesOf(acts[..i], id) == 0
    decreases i
  {
    if i > 0 {
      assert Enabled(queues[i - 1], acts[i - 1]) && queues[i] == Step(queues[i - 1], acts[i - 1]);
      StepChangesTotals(queues[i - 1], acts[i - 1]);
      MovesOfSnoc(acts, i - 1, id);
      NeverMovedBefore(queues, acts, i - 1, id);
    }
  }

  /** And once it can be moved no more, it is deleted or dead-lettered: the latter, if it
      yields no token. */
  lemma RestIsDeletedOrDeadLettered(queues: seq<Queue>, acts: seq<Action>, i: nat, id: nat)
    requires IsRun(queues, acts) && i < |queues| && id < |queues[i].tasks|
    ensures (forall act :: MovesMessage(act, id) ==> !Enabled(queues[i], act)) <==>
      queues[i].tasks[id].place.Gone? || queues[i].tasks[id].place.DeadLettered?
    ensures (forall act :: MovesMessage(act, id) ==> !Enabled(queues[i], act)) ==>
      !Reportable(queues[i].tasks[id].body) ==> queues[i].tasks[id].place.DeadLettered?
  {
    RunKeepsInv(queues, acts, i);
    var task := queues[i].tasks[id];
    assert TaskOk(task, queues[i].max);
    assert MovesMessage(Receive(id), id) && MovesMessage(Lapse(id), id) && MovesMessage(Redrive(id), id);
    if task.place.Queued? {
      assert Enabled(queues[i], Receive(id)) || Enabled(queues[i], Redrive(id));
    } else if task.place.InFlight? {
      assert Enabled(queues[i], Lapse(id));
    }
  }

  /** No step loses a message, and only handling a message's own copy deletes it. */
  lemma MessagesAreKept(q: Queue, act: Action, id: nat)
    requires Enabled(q, act) && id < |q.tasks|
    ensures id < |Step(q, act).tasks| && Step(q, act).tasks[id].body == q.tasks[id].body
    ensures Step(q, act).tasks[id].place.Gone? && !q.tasks[id].place.Gone? ==>
      act.Handling? && act.copy.id == id && Deletes(q.tasks[id].body, act.copy, act.oracle)
    ensures q.tasks[id].place.DeadLettered? ==> Step(q, act).tasks[id].place.DeadLettered?
  {
  }

  /** A message that yields no token is never deleted: it is waiting, in flight or
      dead-lettered, and handling it touches no other message. */
  lemma PoisonIsNeverDeleted(queues: seq<Queue>, acts: seq<Action>, i: nat, id: nat)
    requires IsRun(queues, acts) && i < |queues| && id < |queues[i].tasks| && !Reportable(queues[i].tasks[id].body)
    ensures !queues[i].tasks[id].place.Gone?
    ensures i < |acts| && acts[i].Handling? && acts[i].copy.id == id ==> queues[i + 1].tasks == queues[i].tasks
  {
    RunKeepsInv(queues, acts, i);
    assert TaskOk(queues[i].tasks[id], queues[i].max);
    if i < |acts| && acts[i].Handling? && acts[i].copy.id == id {
      assert Enabled(queues[i], acts[i]) && queues[i + 1] == Step(queues[i], acts[i]);
      PoisonDeletesNothing(queues[i].tasks[id].body, acts[i].copy, acts[i].oracle);
    }
  }

  predicate Plays(q: Queue, acts: seq<Action>)
    decreases acts
  {
    acts == [] || (Enabled(q, acts[0]) && Plays(Step(q, acts[0]), acts[1..]))
  }

  function Play(q: Queue, acts: seq<Action>): Queue
    requires Plays(q, acts)
    decreases acts
  {
    if acts == [] then q else Play(Step(q, acts[0]), acts[1..])
  }

  /** Received and left to lapse until its receives are used up, then moved aside. */
  function Exhaust(id: nat, left: nat): seq<Action> {
    if left == 0 then [Redrive(id)] else [Receive(id)] + ([Lapse(id)] + Exhaust(id, left - 1))
  }

  /** Redelivery without deletion always ends: a waiting message that is never deleted reaches
      the dead-letter queue after exactly its remaining receives, the others untouched. */
  lemma {:induction false} UndeletedEndsDeadLettered(q: Queue, id: nat)
    requires id < |q.tasks| && q.tasks[id].place.Queued? && q.tasks[id].receives <= q.max
    ensures var acts := Exhaust(id, q.max - q.tasks[id].receives);
      && Plays(q, acts)
      && Play(q, acts).tasks == q.tasks[id := Task(q.tasks[id].body, DeadLettered, q.max)]
    decreases q.max - q.tasks[id].receives
  {
    var left := q.max - q.tasks[id].receives;
    var acts := Exhaust(id, left);
    if left == 0 {
      assert acts[1..] == [];
    } else {
      var q1 := Step(q, Receive(id));
      var q2 := Step(q1, Lapse(id));
      UndeletedEndsDeadLettered(q2, id);
      assert acts[1..] == [Lapse(id)] + Exhaust(id, left - 1);
      assert acts[1..][1..] == Exhaust(id, left - 1);
      assert Plays(q1, acts[1..]);
    }
  }
}
