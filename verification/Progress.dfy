/** No stuck work: every unfinished receipt has something that will move it, or a recorded reason
    why nothing will; and worker steps alone always run out. */
module Progress {
  import opened Domain
  import opened Mail
  import opened Machine
  import opened Shapes

  // ----- what keeps a receipt moving ----------------------------------------

  /** The task will still write a status, or ended without recording the outcome. */
  predicate Accounts(t: Task, status: Status) {
    match t.kind
    case Process =>
      if Over(t.stage) then Abandoned(t.stage) else t.stage != Handoff || status == Parsed
    case Categorise =>
      && status == Parsed
      && (t.stage == Queued || (t.stage.Read? && t.stage.snap == Parsed) || t.stage.Ready? || t.stage == Fixing
          || t.stage.Exhausted? || t.stage == Lost)
  }

  predicate Abandoned(stage: TaskStage) {
    stage == Lost || stage == Exhausted(false)
  }

  predicate Settled(status: Status) {
    status == Categorised || status == Failed
  }

  /** Between a commit that made the row `Uploaded` and the enqueueing that follows it. */
  ghost predicate AwaitsEnqueue(s: State, id: ReceiptId) {
    || (exists i :: 0 <= i < |s.ingests| && s.ingests[i].stage == Persisted(id))
    || (exists i :: 0 <= i < |s.retries| && s.retries[i].stage == Enqueueing && s.retries[i].receipt == id)
    || id in s.past.stranded
  }

  ghost predicate HasMover(s: State, id: ReceiptId, status: Status) {
    exists i :: 0 <= i < |s.tasks| && s.tasks[i].receipt == id && Accounts(s.tasks[i], status)
  }

  ghost predicate Explained(s: State, id: ReceiptId)
    requires id in s.db.rows
  {
    var status := s.db.rows[id].status;
    Settled(status) || HasMover(s, id, status) || (status == Uploaded && AwaitsEnqueue(s, id))
  }

  predicate WellKinded(t: Task) {
    match t.kind
    case Process => !t.stage.Read? && !t.stage.Ready? && !t.stage.Fixing?
    case Categorise =>
      t.stage.Queued? || t.stage.Read? || t.stage.Ready? || t.stage.Fixing? || Over(t.stage)
  }

  ghost predicate ProgressInv(s: State) {
    && (forall id <- s.db.rows :: id < s.db.nextRow && Explained(s, id))
    && (forall i | 0 <= i < |s.tasks| :: WellKinded(s.tasks[i]) && s.tasks[i].receipt < s.db.nextRow)
    && (forall i | 0 <= i < |s.ingests| && s.ingests[i].stage.Persisted? :: s.ingests[i].stage.receipt < s.db.nextRow)
    && (forall i | 0 <= i < |s.retries| && (s.retries[i].stage == Resetting || s.retries[i].stage == Enqueueing) ::
          s.retries[i].receipt < s.db.nextRow)
  }

  // ----- worker steps -------------------------------------------------------

  /** Responsibility for the receipt is kept, handed on, or was never with the task. `before` is the
      receipt's status when the statement runs. */
  predicate KeepsCharge(t: Task, before: Status, effect: Effect) {
    var after := if effect.write.Some? then effect.write.value else before;
    && effect.next.kind == t.kind && effect.next.receipt == t.receipt
    && (|| Settled(after)
        || Accounts(effect.next, after)
        || (effect.enqueue && after == Parsed)
        || (after == before && !Accounts(t, before)))
  }

  lemma DecideKeepsCharge(db: Database, t: Task, out: Outcome)
    requires WellKinded(t)
    ensures WellKinded(Decide(db, t, out).next)
    ensures t.receipt in db.rows ==> KeepsCharge(t, db.rows[t.receipt].status, Decide(db, t, out))
    ensures Decide(db, t, out).next.kind == t.kind && Decide(db, t, out).next.receipt == t.receipt
  {
  }

  lemma PerformKeepsInv(s: State, i: nat, effect: Effect)
    requires ProgressInv(s) && i < |s.tasks|
    requires effect.write.Some? ==> s.tasks[i].receipt in s.db.rows
    requires WellKinded(effect.next) && effect.next.receipt == s.tasks[i].receipt
    requires s.tasks[i].receipt in s.db.rows ==>
               KeepsCharge(s.tasks[i], s.db.rows[s.tasks[i].receipt].status, effect)
    ensures ProgressInv(Perform(s, i, effect))
  {
    var s' := Perform(s, i, effect);
    forall id <- s'.db.rows ensures id < s'.db.nextRow && Explained(s', id) {
      assert Explained(s, id);
      var after := s'.db.rows[id].status;
      if !Settled(after) {
        if id == s.tasks[i].receipt && Accounts(effect.next, after) {
          assert s'.tasks[i] == effect.next;
        } else if id == s.tasks[i].receipt && effect.enqueue && after == Parsed {
          assert Accounts(s'.tasks[|s.tasks|], after);
        } else if j :| 0 <= j < |s.tasks| && s.tasks[j].receipt == id && Accounts(s.tasks[j], s.db.rows[id].status) {
          assert j != i;
          assert s'.tasks[j] == s.tasks[j];
        }
      }
    }
  }

  lemma WorkerKeepsInv(s: State, i: nat, out: Outcome)
    requires ProgressInv(s) && i < |s.tasks|
    ensures ProgressInv(StepTask(s, i, out))
  {
    DecideKeepsCharge(s.db, s.tasks[i], out);
    PerformKeepsInv(s, i, Decide(s.db, s.tasks[i], out));
  }

  lemma RedeliveryKeepsInv(s: State, i: nat)
    requires ProgressInv(s) && i < |s.tasks|
    ensures ProgressInv(RedeliverTask(s, i)) && ProgressInv(LoseTask(s, i))
  {
    if !Over(s.tasks[i].stage) {
      PerformKeepsInv(s, i, Goto(s.tasks[i], Queued));
      PerformKeepsInv(s, i, Goto(s.tasks[i], Lost));
    }
  }

  lemma DuplicationKeepsInv(s: State, i: nat)
    requires ProgressInv(s) && i < |s.tasks|
    ensures ProgressInv(DuplicateTask(s, i))
  {
    var s' := DuplicateTask(s, i);
    forall id <- s'.db.rows ensures id < s'.db.nextRow && Explained(s', id) {
      assert Explained(s, id);
      var status := s.db.rows[id].status;
      if j :| 0 <= j < |s.tasks| && s.tasks[j].receipt == id && Accounts(s.tasks[j], status) {
        assert s'.tasks[j] == s.tasks[j];
      }
    }
  }

  // ----- callers ------------------------------------------------------------

  /** Steps outside the workers: tasks are only appended; a row keeps its status, or disappears, or
      becomes `Uploaded` with its enqueueing accounted for. */
  ghost predicate CallerStep(s: State, s': State) {
    && |s.tasks| <= |s'.tasks| && s'.tasks[..|s.tasks|] == s.tasks
    && (forall i | |s.tasks| <= i < |s'.tasks| ::
          s'.tasks[i].kind == Process && s'.tasks[i].stage == Queued && s'.tasks[i].receipt < s'.db.nextRow)
    && s.db.nextRow <= s'.db.nextRow
    && (forall id <- s'.db.rows ::
          || (id in s.db.rows && s'.db.rows[id].status == s.db.rows[id].status)
          || (id < s'.db.nextRow && s'.db.rows[id].status == Uploaded && AwaitsEnqueue(s', id)))
    && (forall id <- s'.db.rows :: id in s.db.rows || id >= s.db.nextRow)
    && (forall id | AwaitsEnqueue(s, id) :: AwaitsEnqueue(s', id) || Enqueued(s, s', id))
    && (forall i | 0 <= i < |s'.ingests| && s'.ingests[i].stage.Persisted? ::
          s'.ingests[i].stage.receipt < s'.db.nextRow)
    && (forall i | 0 <= i < |s'.retries| && (s'.retries[i].stage == Resetting || s'.retries[i].stage == Enqueueing) ::
          s'.retries[i].receipt < s'.db.nextRow)
  }

  predicate Enqueued(s: State, s': State, id: ReceiptId) {
    |s.tasks| < |s'.tasks| && s'.tasks[|s.tasks|] == Task(Process, id, 0, Queued)
  }

  lemma CallerStepKeepsInv(s: State, s': State)
    requires ProgressInv(s) && CallerStep(s, s')
    ensures ProgressInv(s')
  {
    forall i | 0 <= i < |s.tasks| ensures s'.tasks[i] == s.tasks[i] {
      assert s'.tasks[..|s.tasks|][i] == s.tasks[i];
    }
    forall id <- s'.db.rows ensures id < s'.db.nextRow && Explained(s', id) {
      if id in s.db.rows && s'.db.rows[id].status == s.db.rows[id].status {
        assert Explained(s, id);
        var status := s.db.rows[id].status;
        if j :| 0 <= j < |s.tasks| && s.tasks[j].receipt == id && Accounts(s.tasks[j], status) {
          assert s'.tasks[j] == s.tasks[j];
        } else if Enqueued(s, s', id) {
          assert Accounts(s'.tasks[|s.tasks|], Uploaded);
        }
      }
    }
  }

  lemma CommitIsCallerStep(s: State, i: nat, out: Outcome)
    requires ProgressInv(s) && i < |s.ingests| && s.ingests[i].stage.Stored?
    ensures CallerStep(s, StepIngest(s, i, out))
  {
    var s' := StepIngest(s, i, out);
    forall id | AwaitsEnqueue(s, id) ensures AwaitsEnqueue(s', id) {
      if j :| 0 <= j < |s.ingests| && s.ingests[j].stage == Persisted(id) {
        assert s'.ingests[j] == s.ingests[j];
      }
    }
    if s.db.nextRow in s'.db.rows {
      assert s'.ingests[i].stage == Persisted(s.db.nextRow) || s.db.nextRow in s'.past.stranded;
      assert AwaitsEnqueue(s', s.db.nextRow);
    }
  }

  lemma EnqueueIsCallerStep(s: State, i: nat, out: Outcome)
    requires ProgressInv(s) && i < |s.ingests| && s.ingests[i].stage.Persisted?
    ensures CallerStep(s, StepIngest(s, i, out))
  {
    var s' := StepIngest(s, i, out);
    forall id | AwaitsEnqueue(s, id) ensures AwaitsEnqueue(s', id) || Enqueued(s, s', id) {
      if j :| 0 <= j < |s.ingests| && s.ingests[j].stage == Persisted(id) {
        assert j != i ==> s'.ingests[j] == s.ingests[j];
      }
    }
  }

  lemma IngestIsCallerStep(s: State, i: nat, out: Outcome)
    requires ProgressInv(s) && i < |s.ingests| && !s.ingests[i].stage.Stored? && !s.ingests[i].stage.Persisted?
    ensures CallerStep(s, StepIngest(s, i, out))
  {
    hide Explained, AwaitsEnqueue, Screen, HasMessage;
    AwaitsEnqueueDependsOn(s, StepIngest(s, i, out));
  }

  lemma IngestCrashIsCallerStep(s: State, i: nat)
    requires ProgressInv(s) && i < |s.ingests|
    ensures CallerStep(s, CrashIngest(s, i))
  {
    var s' := CrashIngest(s, i);
    forall id | AwaitsEnqueue(s, id) ensures AwaitsEnqueue(s', id) {
      if j :| 0 <= j < |s.ingests| && s.ingests[j].stage == Persisted(id) {
        assert j != i ==> s'.ingests[j] == s.ingests[j];
      } else if j :| 0 <= j < |s.retries| && s.retries[j].stage == Enqueueing && s.retries[j].receipt == id {
        assert s'.retries[j] == s.retries[j];
      }
    }
  }

  lemma RetryIsCallerStep(s: State, i: nat, s': State)
    requires ProgressInv(s) && i < |s.retries|
    requires s' == CrashRetry(s, i) || exists out :: s' == StepRetry(s, i, out)
    ensures CallerStep(s, s')
  {
    hide Explained;
    forall id | AwaitsEnqueue(s, id) ensures AwaitsEnqueue(s', id) || Enqueued(s, s', id) {
      if j :| 0 <= j < |s.ingests| && s.ingests[j].stage == Persisted(id) {
        assert s'.ingests[j] == s.ingests[j];
      } else if j :| 0 <= j < |s.retries| && s.retries[j].stage == Enqueueing && s.retries[j].receipt == id {
        assert j != i ==> s'.retries[j] == s.retries[j];
      }
    }
    forall id <- s'.db.rows
      ensures || (id in s.db.rows && s'.db.rows[id].status == s.db.rows[id].status)
              || (id < s'.db.nextRow && s'.db.rows[id].status == Uploaded && AwaitsEnqueue(s', id))
    {
      if id == s.retries[i].receipt && s'.db.rows[id].status != s.db.rows[id].status {
        assert s'.retries[i].stage == Enqueueing || id in s'.past.stranded;
      }
    }
  }

  lemma DeletionIsCallerStep(s: State, e: Event)
    requires ProgressInv(s) && (e.RunDeletion? || e.DeletionDies?)
    ensures CallerStep(s, Next(s, e))
  {
    DeletionShape(s, e);
    AwaitsEnqueueDependsOn(s, Next(s, e));
  }

  lemma AwaitsEnqueueDependsOn(s: State, s': State)
    requires |s.ingests| <= |s'.ingests|
    requires forall j | 0 <= j < |s.ingests| && s.ingests[j].stage.Persisted? :: s'.ingests[j] == s.ingests[j]
    requires |s.retries| <= |s'.retries| && (forall j | 0 <= j < |s.retries| :: s'.retries[j] == s.retries[j])
    requires s'.past.stranded == s.past.stranded
    ensures forall id | AwaitsEnqueue(s, id) :: AwaitsEnqueue(s', id)
  {
    forall id | AwaitsEnqueue(s, id) ensures AwaitsEnqueue(s', id) {
      if j :| 0 <= j < |s.ingests| && s.ingests[j].stage == Persisted(id) {
        assert s'.ingests[j].stage == Persisted(id);
      } else if j :| 0 <= j < |s.retries| && s.retries[j].stage == Enqueueing && s.retries[j].receipt == id {
        assert s'.retries[j].stage == Enqueueing;
      }
    }
  }

  lemma SyncIsCallerStep(s: State, i: nat, out: Outcome, answer: HistoryAnswer)
    requires ProgressInv(s) && i < |s.syncs|
    ensures CallerStep(s, StepSync(s, i, out, answer))
  {
    SyncShape(s, i, out, answer);
    AwaitsEnqueueDependsOn(s, StepSync(s, i, out, answer));
  }

  lemma OutsideIsCallerStep(s: State, e: Event)
    requires ProgressInv(s) && Outside(e)
    ensures CallerStep(s, Next(s, e))
  {
    OutsideShape(s, e);
    AwaitsEnqueueDependsOn(s, Next(s, e));
  }

  predicate WorkerEvent(e: Event) {
    e.RunTask? || e.TaskRedelivered? || e.TaskDuplicated? || e.TaskKilled?
  }

  lemma NextIsCallerStep(s: State, e: Event)
    requires ProgressInv(s) && !WorkerEvent(e)
    ensures CallerStep(s, Next(s, e))
  {
    if Next(s, e) != s {
      match e
      case RunIngest(i, out) =>
        if s.ingests[i].stage.Stored? { CommitIsCallerStep(s, i, out); }
        else if s.ingests[i].stage.Persisted? { EnqueueIsCallerStep(s, i, out); }
        else { IngestIsCallerStep(s, i, out); }
      case IngestDies(i) => IngestCrashIsCallerStep(s, i);
      case RunRetry(i, out) => RetryIsCallerStep(s, i, Next(s, e));
      case RetryDies(i) => RetryIsCallerStep(s, i, Next(s, e));
      case RunDeletion(_, _) => DeletionIsCallerStep(s, e);
      case DeletionDies(_) => DeletionIsCallerStep(s, e);
      case RunSync(i, out, answer) => SyncIsCallerStep(s, i, out, answer);
      case _ => OutsideIsCallerStep(s, e);
    }
  }

  lemma NextKeepsInv(s: State, e: Event)
    requires ProgressInv(s)
    ensures ProgressInv(Next(s, e))
  {
    hide ProgressInv, CallerStep, StepTask;
    match e
    case RunTask(i, out) => if i < |s.tasks| { WorkerKeepsInv(s, i, out); }
    case TaskRedelivered(i) => if i < |s.tasks| { RedeliveryKeepsInv(s, i); }
    case TaskDuplicated(i) => if i < |s.tasks| { DuplicationKeepsInv(s, i); }
    case TaskKilled(i) => if i < |s.tasks| { RedeliveryKeepsInv(s, i); }
    case _ => NextIsCallerStep(s, e); CallerStepKeepsInv(s, Next(s, e));
  }

  /** At every moment of every run, each unfinished receipt is explained. */
  lemma {:induction false} RunKeepsInv(events: seq<Event>)
    ensures ProgressInv(Run(INITIAL, events))
  {
    if events != [] {
      RunKeepsInv(events[..|events| - 1]);
      NextKeepsInv(Run(INITIAL, events[..|events| - 1]), events[|events| - 1]);
    }
  }
}
