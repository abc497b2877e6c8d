/** What each kind of step can touch at most. Shared by the invariant proofs. */
module Shapes {
  import opened Domain
  import opened Mail
  import opened Machine

  /** A worker step touches statuses, expenses and the queue. */
  predicate WorkerOnly(s: State, s': State) {
    && SameRows(s, s')
    && s'.db.nextRow == s.db.nextRow
    && s' == s.(db := s'.db, past := s'.past, tasks := s'.tasks)
    && s'.past == s.past.(expensed := s'.past.expensed)
  }

  lemma PerformShape(s: State, i: nat, effect: Effect)
    requires i < |s.tasks|
    requires effect.write.Some? ==> s.tasks[i].receipt in s.db.rows
    ensures WorkerOnly(s, Perform(s, i, effect))
  {
  }

  lemma WorkerShape(s: State, i: nat, out: Outcome)
    requires i < |s.tasks|
    ensures WorkerOnly(s, StepTask(s, i, out))
  {
    PerformShape(s, i, Decide(s.db, s.tasks[i], out));
  }

  /** Retrying touches statuses, the queue and the stranded set. */
  predicate RetryOnly(s: State, s': State) {
    && SameRows(s, s')
    && s'.db == s.db.(rows := s'.db.rows)
    && s' == s.(db := s'.db, past := s'.past, tasks := s'.tasks, retries := s'.retries)
    && s'.past == s.past.(stranded := s'.past.stranded)
  }

  lemma RetryShape(s: State, i: nat, out: Outcome)
    requires i < |s.retries|
    ensures RetryOnly(s, StepRetry(s, i, out))
  {
  }

  lemma RetryCrashShape(s: State, i: nat)
    requires i < |s.retries|
    ensures RetryOnly(s, CrashRetry(s, i))
  {
  }

  /** Deleting only removes rows and touches nothing of tasks, ingests or mail. */
  predicate DeletionOnly(s: State, s': State) {
    && (forall id <- s'.db.rows :: id in s.db.rows && s'.db.rows[id] == s.db.rows[id])
    && s'.db.nextRow == s.db.nextRow
    && s' == s.(db := s'.db, bucket := s'.bucket, past := s'.past, deletions := s'.deletions)
    && s'.past == s.past.(excused := s'.past.excused)
  }

  lemma DeletionShape(s: State, e: Event)
    requires e.RunDeletion? || e.DeletionDies?
    ensures DeletionOnly(s, Next(s, e))
  {
  }

  /** A sync step touches cursors, syncs, and ingests it starts at the dedup query. */
  predicate SyncOnly(s: State, s': State) {
    && s' == s.(mail := s'.mail, syncs := s'.syncs, ingests := s'.ingests)
    && |s.ingests| <= |s'.ingests|
    && (forall i | 0 <= i < |s.ingests| :: s'.ingests[i] == s.ingests[i])
    && (forall i | |s.ingests| <= i < |s'.ingests| :: s'.ingests[i].stage == Checking)
  }

  lemma WalkShape(s: State, i: nat, out: Outcome, answer: HistoryAnswer)
    requires i < |s.syncs| && s.syncs[i].stage.Walking?
    ensures SyncOnly(s, StepSync(s, i, out, answer))
  {
  }

  lemma SyncShape(s: State, i: nat, out: Outcome, answer: HistoryAnswer)
    requires i < |s.syncs|
    ensures SyncOnly(s, StepSync(s, i, out, answer))
  {
    if s.syncs[i].stage.Walking? { WalkShape(s, i, out, answer); }
  }

  /** Events that start work, edit expenses, redeliver, or happen outside. */
  predicate Outside(e: Event) {
    e.BeginUpload? || e.BeginDelivery? || e.BeginDeletion? || e.BeginRetry? || e.AddExpense? || e.RemoveExpense?
    || e.Connect? || e.SyncRedelivered? || e.MailArrives? || e.HeadMoves? || e.PushArrives?
  }

  /** They leave rows, blobs and tasks alone; new work starts at its first statement. */
  predicate OutsideOnly(s: State, s': State) {
    && s'.db.rows == s.db.rows && s'.db.nextRow == s.db.nextRow && s'.bucket == s.bucket && s'.past == s.past
    && s'.tasks == s.tasks
    && |s.ingests| <= |s'.ingests| && (forall i | 0 <= i < |s.ingests| :: s'.ingests[i] == s.ingests[i])
    && (forall i | |s.ingests| <= i < |s'.ingests| ::
          (s'.ingests[i].stage == Checking && s'.ingests[i].external.Some?) || s'.ingests[i].stage == Looping)
    && (forall i | |s.ingests| <= i < |s'.ingests| :: s'.ingests[i].pos == 0)
    && |s.retries| <= |s'.retries| && (forall i | 0 <= i < |s.retries| :: s'.retries[i] == s.retries[i])
    && (forall i | |s.retries| <= i < |s'.retries| :: s'.retries[i].stage == Fetching)
    && |s.deletions| <= |s'.deletions| && (forall i | 0 <= i < |s.deletions| :: s'.deletions[i] == s.deletions[i])
    && (forall i | |s.deletions| <= i < |s'.deletions| :: s'.deletions[i].stage == Finding)
  }

  lemma NewWorkShape(s: State, e: Event)
    requires e.BeginUpload? || e.BeginDelivery? || e.BeginDeletion? || e.BeginRetry?
    ensures OutsideOnly(s, Next(s, e))
  {
  }

  lemma OutsideShape(s: State, e: Event)
    requires Outside(e)
    ensures OutsideOnly(s, Next(s, e))
  {
    if e.BeginUpload? || e.BeginDelivery? || e.BeginDeletion? || e.BeginRetry? {
      hide Next, OutsideOnly;
      NewWorkShape(s, e);
    }
  }
}
