/** Worker steps run out, and what is left when they have. */
module Settling {
  import opened Domain
  import opened Mail
  import opened Machine
  import opened Shapes
  import opened Progress
  import History

  // ----- the measure --------------------------------------------------------

  // A categorise attempt takes at most 3 steps, a process attempt at most 5 and may enqueue one
  // categorise task, worth CATEGORISE_BUDGET.
  const CATEGORISE_BUDGET: nat := 4 * MAX_RETRIES + 3

  function StageRank(t: Task): nat {
    match t.stage
    case Queued => if t.kind.Process? then CATEGORISE_BUDGET + 6 else 3
    case Loaded(_) => CATEGORISE_BUDGET + 5
    case Marked => CATEGORISE_BUDGET + 4
    case Committing => CATEGORISE_BUDGET + 3
    case Handoff => CATEGORISE_BUDGET + 2
    case Marker(_) => 1
    case Read(_, _) => 2
    case _ => 1
  }

  /** How many more worker steps the task can cause, itself and through what it enqueues. */
  function Budget(t: Task): nat {
    if Over(t.stage) then 0
    else
      var left := if t.retries < MAX_RETRIES then MAX_RETRIES - t.retries else 0;
      left * (if t.kind.Process? then CATEGORISE_BUDGET + 7 else 4) + StageRank(t)
  }

  function Remaining(tasks: seq<Task>): nat {
    if tasks == [] then 0 else Remaining(tasks[..|tasks| - 1]) + Budget(tasks[|tasks| - 1])
  }

  lemma {:induction false} RemainingUpdate(tasks: seq<Task>, i: nat, t: Task)
    requires i < |tasks|
    ensures Remaining(tasks[i := t]) == Remaining(tasks) - Budget(tasks[i]) + Budget(t)
  {
    var init, last := tasks[..|tasks| - 1], tasks[|tasks| - 1];
    if i == |tasks| - 1 {
      assert tasks[i := t][..|tasks| - 1] == init;
    } else {
      RemainingUpdate(init, i, t);
      assert tasks[i := t][..|tasks| - 1] == init[i := t];
    }
  }

  lemma RemainingAppend(tasks: seq<Task>, t: Task)
    ensures Remaining(tasks + [t]) == Remaining(tasks) + Budget(t)
  {
    assert (tasks + [t])[..|tasks|] == tasks;
  }

  /** Whatever the outcome, one statement uses up budget, what it enqueues included. */
  lemma DecideUsesBudget(db: Database, t: Task, out: Outcome)
    requires !Over(t.stage) && WellKinded(t)
    ensures
      var effect := Decide(db, t, out);
      Budget(effect.next) + (if effect.enqueue then CATEGORISE_BUDGET else 0) < Budget(t)
  {
  }

  lemma {:induction false} WorkerStepDecreases(s: State, i: nat, out: Outcome)
    requires i < |s.tasks| && !Over(s.tasks[i].stage) && WellKinded(s.tasks[i])
    ensures Remaining(StepTask(s, i, out).tasks) < Remaining(s.tasks)
  {
    var effect := Decide(s.db, s.tasks[i], out);
    DecideUsesBudget(s.db, s.tasks[i], out);
    RemainingUpdate(s.tasks, i, effect.next);
    if effect.enqueue {
      RemainingAppend(s.tasks[i := effect.next], Task(Categorise, s.tasks[i].receipt, 0, Queued));
    }
  }

  /** A run of worker steps, each on a live task. */
  predicate WorkerRun(s: State, events: seq<Event>) {
    events == [] ||
      var init, last := events[..|events| - 1], events[|events| - 1];
      && WorkerRun(s, init)
      && last.RunTask? && last.i < |Run(s, init).tasks| && !Over(Run(s, init).tasks[last.i].stage)
  }

  /** From any reachable state the workers can take only so many steps, whatever fails. */
  lemma {:induction false} WorkerRunsAreBounded(past: seq<Event>, events: seq<Event>)
    requires WorkerRun(Run(INITIAL, past), events)
    ensures
      |events| + Remaining(Run(Run(INITIAL, past), events).tasks) <= Remaining(Run(INITIAL, past).tasks)
  {
    hide Decide, Perform, Remaining;
    if events != [] {
      var init, last := events[..|events| - 1], events[|events| - 1];
      WorkerRunsAreBounded(past, init);
      var before := Run(Run(INITIAL, past), init);
      assert ProgressInv(before) by {
        RunConcat(INITIAL, past, init);
        Progress.RunKeepsInv(past + init);
      }
      WorkerStepDecreases(before, last.i, last.out);
    }
  }

  // ----- what is left -------------------------------------------------------

  predicate AllOver(s: State) {
    forall i | 0 <= i < |s.tasks| :: Over(s.tasks[i].stage)
  }

  ghost predicate EndedWith(s: State, id: ReceiptId, kind: TaskKind, stage: TaskStage) {
    exists i :: 0 <= i < |s.tasks| && s.tasks[i].receipt == id && s.tasks[i].kind == kind && s.tasks[i].stage == stage
  }

  ghost predicate ProcessAbandoned(s: State, id: ReceiptId) {
    EndedWith(s, id, Process, Lost) || EndedWith(s, id, Process, Exhausted(false))
  }

  ghost predicate CategoriseAbandoned(s: State, id: ReceiptId) {
    EndedWith(s, id, Categorise, Lost) || exists marked :: EndedWith(s, id, Categorise, Exhausted(marked))
  }

  /** A caller is between the commit of the row and its enqueueing. */
  ghost predicate CallerOwes(s: State, id: ReceiptId) {
    || (exists i :: 0 <= i < |s.ingests| && s.ingests[i].stage == Persisted(id))
    || (exists i :: 0 <= i < |s.retries| && s.retries[i].stage == Enqueueing && s.retries[i].receipt == id)
  }

  /** Once no task is live, every receipt is finished or stuck for a reason: a task of it was spent or
      lost, its caller still has to enqueue it, or an event of the run dropped that enqueueing. */
  lemma {:induction false} QuietReceiptsAreClassified(events: seq<Event>, id: ReceiptId)
    requires var s := Run(INITIAL, events); AllOver(s) && id in s.db.rows
    ensures
      var s := Run(INITIAL, events);
      match s.db.rows[id].status
      case Categorised => true
      case Failed => true
      case Parsed => CategoriseAbandoned(s, id) || ProcessAbandoned(s, id)
      case Processing => ProcessAbandoned(s, id)
      case Uploaded =>
        ProcessAbandoned(s, id) || CallerOwes(s, id) || History.Happened(events, History.Stranded(id))
  {
    hide Run, Next, History.Causes;
    var s := Run(INITIAL, events);
    History.RecordedIffHappened(events, History.Stranded(id));
    Progress.RunKeepsInv(events);
    assert Explained(s, id);
    var status := s.db.rows[id].status;
    if j :| 0 <= j < |s.tasks| && s.tasks[j].receipt == id && Accounts(s.tasks[j], status) {
      assert Over(s.tasks[j].stage);
      assert s.tasks[j].stage.Exhausted? ==>
        EndedWith(s, id, s.tasks[j].kind, Exhausted(s.tasks[j].stage.marked));
    }
  }

  // ----- clean workers ------------------------------------------------------

  /** No worker child is killed, and on the last attempt of a process task its read, its mark and its
      failure marker succeed. Every earlier attempt, and everything else, may fail or crash at will. */
  predicate CleanStep(s: State, e: Event) {
    match e
    case TaskKilled(i) => false
    case RunTask(i, out) =>
      i < |s.tasks| && s.tasks[i].kind.Process? && s.tasks[i].retries >= MAX_RETRIES
        && (s.tasks[i].stage.Queued? || s.tasks[i].stage.Loaded? || s.tasks[i].stage.Marker?)
      ==> out == Succeeds
    case _ => true
  }

  predicate CleanRun(events: seq<Event>) {
    events == [] ||
      (CleanRun(events[..|events| - 1])
       && CleanStep(Run(INITIAL, events[..|events| - 1]), events[|events| - 1]))
  }

  /** An abandoned process task can only belong to a receipt that was deleted meanwhile. */
  predicate NothingAbandoned(s: State) {
    forall i | 0 <= i < |s.tasks| ::
      && s.tasks[i].stage != Lost
      && (s.tasks[i].kind.Process? && s.tasks[i].stage == Exhausted(false) ==> s.tasks[i].receipt !in s.db.rows)
  }

  lemma CleanDecide(s: State, i: nat, out: Outcome)
    requires i < |s.tasks| && s.tasks[i].stage != Lost && CleanStep(s, RunTask(i, out)) && WellKinded(s.tasks[i])
    requires s.tasks[i].kind.Process? && s.tasks[i].stage == Exhausted(false) ==> s.tasks[i].receipt !in s.db.rows
    ensures
      var next := Decide(s.db, s.tasks[i], out).next;
      && next.stage != Lost && next.receipt == s.tasks[i].receipt && next.kind == s.tasks[i].kind
      && (next.kind.Process? && next.stage == Exhausted(false) ==> next.receipt !in s.db.rows)
  {
  }

  lemma CleanTaskStep(s: State, i: nat, out: Outcome)
    requires ProgressInv(s) && NothingAbandoned(s) && i < |s.tasks| && CleanStep(s, RunTask(i, out))
    ensures NothingAbandoned(StepTask(s, i, out))
  {
    CleanDecide(s, i, out);
    PerformShape(s, i, Decide(s.db, s.tasks[i], out));
  }

  /** Rows only appear with ids no task has seen. */
  lemma CleanCallerStep(s: State, s': State)
    requires ProgressInv(s) && NothingAbandoned(s) && CallerStep(s, s')
    ensures NothingAbandoned(s')
  {
    forall i | 0 <= i < |s.tasks| ensures s'.tasks[i] == s.tasks[i] {
      assert s'.tasks[..|s.tasks|][i] == s.tasks[i];
    }
  }

  lemma CleanDelivery(s: State, e: Event)
    requires NothingAbandoned(s) && (e.TaskRedelivered? || e.TaskDuplicated?)
    ensures NothingAbandoned(Next(s, e))
  {
  }

  lemma CleanNext(s: State, e: Event)
    requires ProgressInv(s) && NothingAbandoned(s) && CleanStep(s, e)
    ensures NothingAbandoned(Next(s, e))
  {
    hide ProgressInv, CallerStep, StepTask, NothingAbandoned;
    match e
    case RunTask(i, out) => if i < |s.tasks| { CleanTaskStep(s, i, out); }
    case TaskRedelivered(_) => CleanDelivery(s, e);
    case TaskDuplicated(_) => CleanDelivery(s, e);
    case TaskKilled(_) =>
    case _ => NextIsCallerStep(s, e); CleanCallerStep(s, Next(s, e));
  }

  lemma {:induction false} CleanRunAbandonsNothing(events: seq<Event>)
    requires CleanRun(events)
    ensures NothingAbandoned(Run(INITIAL, events))
  {
    if events != [] {
      var init := events[..|events| - 1];
      CleanRunAbandonsNothing(init);
      Progress.RunKeepsInv(init);
      CleanNext(Run(INITIAL, init), events[|events| - 1]);
    }
  }

  /** With clean last attempts, under any earlier failures, crashes, redeliveries and duplicate
      deliveries, a receipt is never stuck while processing; once no task is live it is categorised,
      failed, parsed with its categorise retries spent, or never enqueued: its caller has yet to, or an
      event of the run dropped it. */
  lemma {:induction false} CleanRunsSettle(events: seq<Event>, id: ReceiptId)
    requires CleanRun(events)
    requires var s := Run(INITIAL, events); AllOver(s) && id in s.db.rows
    ensures
      var s := Run(INITIAL, events);
      match s.db.rows[id].status
      case Categorised => true
      case Failed => true
      case Parsed => exists marked :: EndedWith(s, id, Categorise, Exhausted(marked))
      case Processing => false
      case Uploaded => CallerOwes(s, id) || History.Happened(events, History.Stranded(id))
  {
    hide Run, Next, History.Happened, CleanRun;
    QuietReceiptsAreClassified(events, id);
    CleanRunAbandonsNothing(events);
  }
}
