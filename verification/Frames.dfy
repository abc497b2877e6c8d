/** What one event may change, and what only which event changes: receipts, expenses, blobs and tasks come
    and go exactly when the statement responsible for it takes effect. */
module Frames {
  import opened Domain
  import opened Mail
  import opened Machine
  import opened Shapes
  import opened History

  // ----- receipts -----------------------------------------------------------

  /** The event is the commit that deletes the receipt, and it takes effect. */
  predicate DropsRow(s: State, e: Event, id: ReceiptId) {
    && e.RunDeletion? && e.i < |s.deletions| && s.deletions[e.i].stage.Found?
    && s.deletions[e.i].receipt == id && Applied(e.out)
  }

  /** Rows are where they were, up to their status. */
  predicate RowsStay(s: State, s': State) {
    SameRows(s, s') && s'.db.nextRow == s.db.nextRow
  }

  lemma WorkerRowsStay(s: State, i: nat, out: Outcome)
    ensures RowsStay(s, Next(s, RunTask(i, out)))
  {
    if i < |s.tasks| { WorkerShape(s, i, out); }
  }

  lemma RetryRowsStay(s: State, e: Event)
    requires e.RunRetry? || e.RetryDies?
    ensures RowsStay(s, Next(s, e))
  {
    hide StepRetry, CrashRetry;
    match e
    case RunRetry(i, out) => if i < |s.retries| { RetryShape(s, i, out); }
    case RetryDies(i) => if i < |s.retries| { RetryCrashShape(s, i); }
  }

  lemma SyncRowsStay(s: State, i: nat, out: Outcome, answer: HistoryAnswer)
    ensures RowsStay(s, Next(s, RunSync(i, out, answer)))
  {
    hide StepSync;
    if i < |s.syncs| { SyncShape(s, i, out, answer); }
  }

  lemma OtherRowsStay(s: State, e: Event)
    requires !e.RunTask? && !e.RunRetry? && !e.RetryDies? && !e.RunSync? && !e.RunDeletion? && !e.RunIngest?
    ensures RowsStay(s, Next(s, e))
  {
  }

  lemma DeletionDrops(s: State, i: nat, out: Outcome, id: ReceiptId)
    ensures
      var e := RunDeletion(i, out);
      var s' := Next(s, e);
      && s'.db.nextRow == s.db.nextRow && (id in s'.db.rows <==> id in s.db.rows && !DropsRow(s, e, id))
      && (id in s'.db.rows ==> s'.db.rows[id] == s.db.rows[id])
  {
  }

  /** The event is the commit of a new receipt, and it takes effect. */
  predicate AddsRow(s: State, e: Event) {
    && e.RunIngest? && e.i < |s.ingests| && s.ingests[e.i].stage.Stored?
    && InsertsRow(s, e.i, e.out, s.ingests[e.i].stage.key)
  }

  /** The row such a commit makes. */
  function NewRow(g: Ingest): Row
    requires g.stage.Stored?
  {
    Row(g.owner, g.stage.key, g.external, Uploaded)
  }

  lemma IngestAdds(s: State, i: nat, out: Outcome)
    ensures
      var e := RunIngest(i, out);
      Next(s, e).db ==
        if AddsRow(s, e)
        then s.db.(rows := s.db.rows[s.db.nextRow := NewRow(s.ingests[i])], nextRow := s.db.nextRow + 1)
        else s.db
  {
  }

  /** A receipt goes exactly when its deletion commits; while it is there its owner, blob and message stay
      what they are. */
  lemma {:induction false} RowGoesIff(s: State, e: Event, id: ReceiptId)
    requires id in s.db.rows && s.db.nextRow !in s.db.rows
    ensures id !in Next(s, e).db.rows <==> DropsRow(s, e, id)
    ensures id in Next(s, e).db.rows ==> SameIdentity(Next(s, e).db.rows[id], s.db.rows[id])
  {
    hide Next, AddsRow;
    match e
    case RunTask(i, out) => WorkerRowsStay(s, i, out);
    case RunRetry(_, _) => RetryRowsStay(s, e);
    case RetryDies(_) => RetryRowsStay(s, e);
    case RunSync(i, out, answer) => SyncRowsStay(s, i, out, answer);
    case RunDeletion(i, out) => DeletionDrops(s, i, out, id);
    case RunIngest(i, out) => IngestAdds(s, i, out);
    case _ => OtherRowsStay(s, e);
  }

  /** A receipt comes exactly when a create commits, under the next id, with the caller's owner and message,
      the blob just written, and as uploaded. */
  lemma {:induction false} RowComesIff(s: State, e: Event, id: ReceiptId)
    requires id !in s.db.rows
    ensures id in Next(s, e).db.rows <==> AddsRow(s, e) && id == s.db.nextRow
    ensures id in Next(s, e).db.rows ==> Next(s, e).db.rows[id] == NewRow(s.ingests[e.i])
  {
    hide Next, AddsRow;
    if !e.RunIngest? { NotAnIngest(s, e); }
    match e
    case RunTask(i, out) => WorkerRowsStay(s, i, out);
    case RunRetry(_, _) => RetryRowsStay(s, e);
    case RetryDies(_) => RetryRowsStay(s, e);
    case RunSync(i, out, answer) => SyncRowsStay(s, i, out, answer);
    case RunDeletion(i, out) => DeletionDrops(s, i, out, id);
    case RunIngest(i, out) => IngestAdds(s, i, out);
    case _ => OtherRowsStay(s, e);
  }

  /** Ids are given out in order, and a deletion that found its receipt is its owner's. */
  predicate DeletionsAreTheirOwn(s: State) {
    && (forall id <- s.db.rows :: id < s.db.nextRow)
    && forall i | 0 <= i < |s.deletions| && s.deletions[i].stage.Found? ::
         && s.deletions[i].receipt < s.db.nextRow
         && (s.deletions[i].receipt in s.db.rows ==>
               s.db.rows[s.deletions[i].receipt].owner == s.deletions[i].owner)
  }

  lemma DeletionsFind(s: State, e: Event)
    requires DeletionsAreTheirOwn(s)
    ensures
      var s' := Next(s, e);
      && |s.deletions| <= |s'.deletions|
      && forall i | 0 <= i < |s'.deletions| && s'.deletions[i].stage.Found? ::
           if i < |s.deletions| && s.deletions[i].stage.Found? then
             s'.deletions[i].receipt == s.deletions[i].receipt && s'.deletions[i].owner == s.deletions[i].owner
           else
             && s'.deletions[i].receipt in s.db.rows && s'.db == s.db
             && s.db.rows[s'.deletions[i].receipt].owner == s'.deletions[i].owner
  {
    hide StepTask, StepSync, StepIngest, StepRetry;
    if e.RunTask? && e.i < |s.tasks| { WorkerShape(s, e.i, e.out); }
    if e.RunSync? && e.i < |s.syncs| { SyncShape(s, e.i, e.out, e.answer); }
    if e.RunRetry? && e.i < |s.retries| { RetryShape(s, e.i, e.out); }
    if e.RunIngest? { IngestKeepsDeletions(s, e.i, e.out); }
  }

  lemma IngestKeepsDeletions(s: State, i: nat, out: Outcome)
    ensures Next(s, RunIngest(i, out)).deletions == s.deletions
  {
  }

  lemma NextKeepsOwners(s: State, e: Event)
    requires DeletionsAreTheirOwn(s)
    ensures DeletionsAreTheirOwn(Next(s, e))
  {
    var s' := Next(s, e);
    DeletionsFind(s, e);
    NextRowGrows(s, e);
    forall id | id in s'.db.rows ensures id < s'.db.nextRow {
      if id !in s.db.rows { RowComesIff(s, e, id); }
    }
    forall i | 0 <= i < |s'.deletions| && s'.deletions[i].stage.Found?
      ensures s'.deletions[i].receipt < s'.db.nextRow
      ensures s'.deletions[i].receipt in s'.db.rows ==>
        s'.db.rows[s'.deletions[i].receipt].owner == s'.deletions[i].owner
    {
      var id := s'.deletions[i].receipt;
      if id in s.db.rows { RowGoesIff(s, e, id); } else if id in s'.db.rows { RowComesIff(s, e, id); }
    }
  }

  lemma NextRowGrows(s: State, e: Event)
    ensures Next(s, e).db.nextRow == s.db.nextRow + if AddsRow(s, e) then 1 else 0
  {
    hide Next, AddsRow;
    if !e.RunIngest? { NotAnIngest(s, e); }
    match e
    case RunTask(i, out) => WorkerRowsStay(s, i, out);
    case RunRetry(_, _) => RetryRowsStay(s, e);
    case RetryDies(_) => RetryRowsStay(s, e);
    case RunSync(i, out, answer) => SyncRowsStay(s, i, out, answer);
    case RunDeletion(i, out) => DeletionDrops(s, i, out, 0);
    case RunIngest(i, out) => IngestAdds(s, i, out);
    case _ => OtherRowsStay(s, e);
  }

  lemma NotAnIngest(s: State, e: Event)
    requires !e.RunIngest?
    ensures !AddsRow(s, e)
  {
  }

  lemma {:induction false} RunKeepsOwners(events: seq<Event>)
    ensures DeletionsAreTheirOwn(Run(INITIAL, events))
  {
    if events != [] {
      hide Next, DeletionsAreTheirOwn;
      RunKeepsOwners(events[..|events| - 1]);
      NextKeepsOwners(Run(INITIAL, events[..|events| - 1]), events[|events| - 1]);
    } else {
      NobodyDeletes();
    }
  }

  lemma NobodyDeletes()
    ensures DeletionsAreTheirOwn(INITIAL)
  {
  }

  /** In every run a receipt that goes was deleted by its owner, and by nothing else: no crash, race, retry
      or worker loses one. */
  lemma {:induction false} ReceiptsLeaveByTheirOwner(events: seq<Event>, e: Event, id: ReceiptId)
    requires id in Run(INITIAL, events).db.rows && id !in Run(INITIAL, events + [e]).db.rows
    ensures
      var s := Run(INITIAL, events);
      DropsRow(s, e, id) && s.deletions[e.i].owner == s.db.rows[id].owner
  {
    RunSnoc(INITIAL, events, e);
    RunKeepsOwners(events);
    RowGoesIff(Run(INITIAL, events), e, id);
  }

  // ----- expenses -----------------------------------------------------------

  /** An expense goes exactly when it is removed; otherwise it keeps its owner, and its link to a receipt
      unless that very receipt is deleted. */
  lemma {:induction false} ExpenseGoesIff(s: State, e: Event, x: ExpenseId)
    requires x in s.db.expenses && s.db.nextExpense !in s.db.expenses
    ensures
      var before, after := s.db.expenses, Next(s, e).db.expenses;
      && (x !in after <==> e == RemoveExpense(x))
      && (x in after ==>
            && after[x].owner == before[x].owner
            && after[x].receipt ==
                 if before[x].receipt.Some? && DropsRow(s, e, before[x].receipt.value) then None
                 else before[x].receipt)
  {
    hide Next, DropsRow, Spends;
    if e.RunTask? {
      WorkerSpends(s, e.i, e.out);
    } else if e.RunDeletion? {
      DeletionUnlinks(s, e.i, e.out, x);
    } else {
      OthersKeepExpenses(s, e);
    }
    NeitherDropsNorSpends(s, e);
  }

  lemma DeletionUnlinks(s: State, i: nat, out: Outcome, x: ExpenseId)
    ensures
      var before, after := s.db.expenses, Next(s, RunDeletion(i, out)).db.expenses;
      && (x in after <==> x in before)
      && (x in after ==>
            && after[x].owner == before[x].owner
            && after[x].receipt ==
                 if before[x].receipt.Some? && DropsRow(s, RunDeletion(i, out), before[x].receipt.value) then None
                 else before[x].receipt)
  {
  }

  /** The event is the commit of a categorise task's expense, and it takes effect. */
  predicate Spends(s: State, e: Event) {
    && e.RunTask? && e.i < |s.tasks| && s.tasks[e.i].kind == Categorise && s.tasks[e.i].stage.Ready?
    && s.tasks[e.i].receipt in s.db.rows && !HasExpense(s.db, s.tasks[e.i].receipt) && Applied(e.out)
  }

  lemma WorkerExpenses(s: State, i: nat, out: Outcome)
    requires i < |s.tasks|
    ensures
      var t := s.tasks[i];
      StepTask(s, i, out).db.expenses ==
        if Spends(s, RunTask(i, out))
        then s.db.expenses[s.db.nextExpense := Machine.Expense(t.stage.owner, Some(t.receipt))]
        else s.db.expenses
  {
    DecideSpends(s, i, out);
    hide Decide, SetStatus, Spends;
    forall id, status | id in s.db.rows ensures SetStatus(s, id, status).db.expenses == s.db.expenses {
      StatusKeepsExpenses(s, id, status);
    }
  }

  lemma StatusKeepsExpenses(s: State, id: ReceiptId, status: Status)
    requires id in s.db.rows
    ensures SetStatus(s, id, status).db == s.db.(rows := SetStatus(s, id, status).db.rows)
  {
  }

  lemma DecideSpends(s: State, i: nat, out: Outcome)
    requires i < |s.tasks|
    ensures Decide(s.db, s.tasks[i], out).expenseFor
      == if Spends(s, RunTask(i, out)) then Some(s.tasks[i].stage.owner) else None
  {
  }

  lemma WorkerSpends(s: State, i: nat, out: Outcome)
    ensures
      var e := RunTask(i, out);
      Next(s, e).db.expenses ==
        if Spends(s, e)
        then s.db.expenses[s.db.nextExpense := Machine.Expense(s.tasks[i].stage.owner, Some(s.tasks[i].receipt))]
        else s.db.expenses
  {
    if i < |s.tasks| { WorkerExpenses(s, i, out); }
  }

  lemma NeitherDropsNorSpends(s: State, e: Event)
    ensures !e.RunTask? ==> !Spends(s, e)
    ensures !e.RunDeletion? ==> forall id :: !DropsRow(s, e, id)
  {
  }

  lemma OthersKeepExpenses(s: State, e: Event)
    requires !e.RunTask? && !e.RunDeletion?
    ensures
      Next(s, e).db.expenses ==
        match e
        case AddExpense(owner) => s.db.expenses[s.db.nextExpense := Machine.Expense(owner, None)]
        case RemoveExpense(id) => s.db.expenses - {id}
        case _ => s.db.expenses
  {
    hide StepSync, StepIngest, StepRetry, DropsRow, Spends;
    match e
    case RunSync(i, out, answer) => if i < |s.syncs| { SyncShape(s, i, out, answer); }
    case RunRetry(i, out) => if i < |s.retries| { RetryShape(s, i, out); }
    case RunIngest(i, out) => IngestAdds(s, i, out);
    case _ =>
  }

  /** An expense comes exactly by hand, without a receipt, or by the commit of a categorise task, for its
      receipt. */
  lemma {:induction false} ExpenseComesIff(s: State, e: Event, x: ExpenseId)
    requires x !in s.db.expenses
    ensures
      var after := Next(s, e).db.expenses;
      && (x in after <==> x == s.db.nextExpense && (e.AddExpense? || Spends(s, e)))
      && (x in after ==>
            after[x] == if e.AddExpense? then Machine.Expense(e.owner, None)
                        else Machine.Expense(s.tasks[e.i].stage.owner, Some(s.tasks[e.i].receipt)))
  {
    hide Next, DropsRow, Spends;
    if e.RunTask? {
      WorkerSpends(s, e.i, e.out);
    } else if e.RunDeletion? {
      DeletionUnlinks(s, e.i, e.out, x);
    } else {
      OthersKeepExpenses(s, e);
    }
    NeitherDropsNorSpends(s, e);
  }

  // ----- blobs --------------------------------------------------------------

  /** The event is a write of a new object, and it takes effect. */
  predicate Puts(s: State, e: Event, key: BlobKey) {
    && e.RunIngest? && e.i < |s.ingests| && s.ingests[e.i].stage == Looping && key == s.bucket.nextKey
    && s.ingests[e.i].pos < |s.ingests[e.i].parts|
    && Screen(s.ingests[e.i].external.Some?, s.ingests[e.i].parts[s.ingests[e.i].pos]).Accept?
    && Applied(e.out)
  }

  /** The event is a clean-up of the object, or the end of its receipt's deletion, and it takes effect. */
  predicate Wipes(s: State, e: Event, key: BlobKey) {
    || (e.RunIngest? && e.i < |s.ingests| && s.ingests[e.i].stage == RollingBack(key) && Applied(e.out))
    || (e.RunDeletion? && e.i < |s.deletions| && s.deletions[e.i].stage == Wiping(key) && Applied(e.out))
  }

  /** Objects come and go exactly by these. */
  lemma {:induction false} BlobThereIff(s: State, e: Event, key: BlobKey)
    ensures key in Next(s, e).bucket.blobs <==> (key in s.bucket.blobs || Puts(s, e, key)) && !Wipes(s, e, key)
  {
    if e.RunIngest? {
      IngestBlobs(s, e.i, e.out, key);
    } else if e.RunDeletion? {
      DeletionBlobs(s, e.i, e.out, key);
    } else {
      hide Next;
      OthersKeepBlobs(s, e);
    }
  }

  lemma OthersKeepBlobs(s: State, e: Event)
    requires !e.RunIngest? && !e.RunDeletion?
    ensures Next(s, e).bucket == s.bucket
  {
    hide StepTask, StepSync, StepRetry;
    match e
    case RunTask(i, out) => if i < |s.tasks| { WorkerShape(s, i, out); }
    case RunSync(i, out, answer) => if i < |s.syncs| { SyncShape(s, i, out, answer); }
    case RunRetry(i, out) => if i < |s.retries| { RetryShape(s, i, out); }
    case _ =>
  }

  lemma IngestBlobs(s: State, i: nat, out: Outcome, key: BlobKey)
    ensures
      var e := RunIngest(i, out);
      key in Next(s, e).bucket.blobs <==> (key in s.bucket.blobs || Puts(s, e, key)) && !Wipes(s, e, key)
  {
  }

  lemma DeletionBlobs(s: State, i: nat, out: Outcome, key: BlobKey)
    ensures
      var e := RunDeletion(i, out);
      key in Next(s, e).bucket.blobs <==> key in s.bucket.blobs && !Wipes(s, e, key)
  {
  }

  // ----- tasks and syncs ----------------------------------------------------

  /** The event moves task i. */
  predicate Moves(e: Event, i: nat) {
    e == TaskRedelivered(i) || e == TaskKilled(i) || (e.RunTask? && e.i == i)
  }

  /** A task is never lost from the queue or turned into another; only its own statements, its redelivery and
      its killing move it; and it gives up only at the end of its fourth attempt. */
  lemma {:induction false} TaskStays(s: State, e: Event, i: nat)
    requires i < |s.tasks|
    ensures
      var t, tasks := s.tasks[i], Next(s, e).tasks;
      && i < |tasks| && tasks[i].kind == t.kind && tasks[i].receipt == t.receipt
      && (!Moves(e, i) ==> tasks[i] == t)
      && (tasks[i].stage.Exhausted? ==> t.stage.Exhausted? || (e.RunTask? && t.retries >= 3))
      && tasks[i].retries <= t.retries + 1
  {
    if e.RunTask? {
      WorkerMoves(s, e.i, e.out, i);
    } else {
      hide StepSync, StepIngest, StepRetry, StepDeletion;
      match e
      case RunSync(j, out, answer) => if j < |s.syncs| { SyncShape(s, j, out, answer); }
      case RunRetry(j, out) => RetryQueues(s, j, out);
      case RunIngest(j, out) => IngestQueues(s, j, out);
      case RunDeletion(_, _) => DeletionShape(s, e);
      case _ =>
    }
  }

  lemma WorkerMoves(s: State, j: nat, out: Outcome, i: nat)
    requires i < |s.tasks|
    ensures
      var t, tasks := s.tasks[i], Next(s, RunTask(j, out)).tasks;
      && i < |tasks| && tasks[i].kind == t.kind && tasks[i].receipt == t.receipt
      && (i != j ==> tasks[i] == t)
      && (tasks[i].stage.Exhausted? ==> t.stage.Exhausted? || t.retries >= 3) && tasks[i].retries <= t.retries + 1
  {
    if j < |s.tasks| { DecideMoves(s.db, s.tasks[j], out); }
    hide Decide, SetStatus;
  }

  lemma DecideMoves(db: Database, t: Task, out: Outcome)
    ensures
      var next := Decide(db, t, out).next;
      && next.kind == t.kind && next.receipt == t.receipt && next.retries <= t.retries + 1
      && (next.stage.Exhausted? ==> t.stage.Exhausted? || t.retries >= 3)
  {
  }

  lemma RetryQueues(s: State, j: nat, out: Outcome)
    ensures s.tasks <= Next(s, RunRetry(j, out)).tasks
  {
  }

  lemma IngestQueues(s: State, j: nat, out: Outcome)
    ensures s.tasks <= Next(s, RunIngest(j, out)).tasks
  {
  }

  /** A mailbox sync that fails starts over, three times; then it is given up. */
  lemma {:induction false} SyncTriesFourTimes(s: State, i: nat, answer: HistoryAnswer)
    requires i < |s.syncs| && s.syncs[i].connection < |s.mail.connections|
    requires s.syncs[i].stage.Pending? || s.syncs[i].stage.Opened? || s.syncs[i].stage.Listing?
      || s.syncs[i].stage.Walking?
    ensures
      var y, y' := s.syncs[i], Next(s, RunSync(i, Fails, answer)).syncs[i];
      && y'.connection == y.connection && y'.push == y.push
      && (y.retries < 3 ==> y'.stage == Pending && y'.retries == y.retries + 1)
      && (y.retries >= 3 ==> y'.stage == GivenUp)
  {
  }

  /** A call that dies takes no further step. */
  lemma {:induction false} DyingEnds(s: State, i: nat)
    ensures i < |s.ingests| ==>
      CrashIngest(s, i).ingests[i].stage == Dead || s.ingests[i].stage.Finished? || s.ingests[i].stage == Raised
    ensures i < |s.deletions| ==>
      CrashDeletion(s, i).deletions == s.deletions[i := s.deletions[i].(stage := DeletionOver)]
    ensures i < |s.retries| ==>
      CrashRetry(s, i).retries == s.retries[i := s.retries[i].(stage := RetryOver)]
  {
  }

  /** A redelivered task starts over, unless it is over; a second copy starts from the beginning beside the
      first; a killed one is lost; a redelivered sync starts over. */
  lemma {:induction false} TheBrokerDelivers(s: State, i: nat)
    requires i < |s.tasks|
    ensures
      var t := s.tasks[i];
      && RedeliverTask(s, i).tasks == s.tasks[i := if Over(t.stage) then t else t.(stage := Queued)]
      && LoseTask(s, i).tasks == s.tasks[i := if Over(t.stage) then t else t.(stage := Lost)]
      && DuplicateTask(s, i).tasks == s.tasks + [t.(stage := Queued)]
  {
  }

  lemma {:induction false} SyncStartsOver(s: State, i: nat)
    requires i < |s.syncs|
    ensures
      var y := s.syncs[i];
      RestartSync(s, i).syncs
        == s.syncs[i := if y.stage == Synced || y.stage == GivenUp then y else y.(stage := Pending)]
  {
  }
}
