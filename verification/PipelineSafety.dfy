/** Receipts and expenses: one expense per receipt, for the right user, and no receipt categorised
    without one, whatever the interleaving of workers, users and crashes. */
module PipelineSafety {
  import opened Domain
  import opened Mail
  import opened Machine
  import opened Shapes
  import opened History

  // ----- the invariant ------------------------------------------------------

  predicate ExpensesLinked(s: State) {
    forall e <- s.db.expenses ::
      && e < s.db.nextExpense
      && (s.db.expenses[e].receipt.Some? ==>
            var id := s.db.expenses[e].receipt.value;
            id in s.db.rows && s.db.rows[id].owner == s.db.expenses[e].owner && id in s.past.expensed)
  }

  ghost predicate OneExpensePerReceipt(s: State) {
    forall a <- s.db.expenses, b <- s.db.expenses | a != b && s.db.expenses[a].receipt.Some? ::
      s.db.expenses[a].receipt != s.db.expenses[b].receipt
  }

  predicate CategorisedHadExpense(s: State) {
    forall id <- s.db.rows :: id < s.db.nextRow && (s.db.rows[id].status == Categorised ==> id in s.past.expensed)
  }

  predicate OwnerKnown(s: State, id: ReceiptId, owner: UserId) {
    id < s.db.nextRow && (id in s.db.rows ==> s.db.rows[id].owner == owner)
  }

  predicate TaskOk(s: State, t: Task) {
    match t.stage
    case Read(_, owner) => OwnerKnown(s, t.receipt, owner)
    case Ready(owner) => OwnerKnown(s, t.receipt, owner)
    case Fixing => t.receipt in s.past.expensed
    case _ => true
  }

  predicate TasksOk(s: State) {
    forall i | 0 <= i < |s.tasks| :: TaskOk(s, s.tasks[i])
  }

  ghost predicate PipelineInv(s: State) {
    ExpensesLinked(s) && OneExpensePerReceipt(s) && CategorisedHadExpense(s) && TasksOk(s)
  }

  // ----- building blocks ----------------------------------------------------

  /** Owners stay, expenses stay, and no row becomes categorised. */
  predicate StatusesOnly(s: State, s': State) {
    && SameRows(s, s')
    && s'.db.expenses == s.db.expenses && s'.db.nextExpense == s.db.nextExpense && s'.db.nextRow == s.db.nextRow
    && s'.past.expensed == s.past.expensed
    && (forall id <- s.db.rows :: s'.db.rows[id].status == Categorised ==>
          s.db.rows[id].status == Categorised || id in s.past.expensed)
  }

  /** Tasks are rewound, finished or appended, never moved past a guard. */
  predicate TasksHarmless(s: State, s': State) {
    && |s.tasks| <= |s'.tasks|
    && (forall i | 0 <= i < |s.tasks| :: s'.tasks[i] == s.tasks[i] || !Guarded(s'.tasks[i].stage))
    && (forall i | |s.tasks| <= i < |s'.tasks| :: s'.tasks[i].stage == Queued)
  }

  predicate Guarded(stage: TaskStage) {
    stage.Read? || stage.Ready? || stage.Fixing?
  }

  lemma StatusesOnlyKeepsInv(s: State, s': State)
    requires PipelineInv(s) && StatusesOnly(s, s') && TasksHarmless(s, s')
    ensures PipelineInv(s')
  {
    forall i | 0 <= i < |s'.tasks| ensures TaskOk(s', s'.tasks[i]) {
      assert i < |s.tasks| ==> TaskOk(s, s.tasks[i]);
    }
  }

  // ----- worker steps -------------------------------------------------------

  /** What the invariant asks of one worker statement. An expense is only inserted behind both
      guards, by the task's owner; a receipt is only called categorised with that insert, or when an
      expense was seen. */
  predicate EffectOk(s: State, t: Task, effect: Effect) {
    && effect.next.receipt == t.receipt
    && TaskOk(s, effect.next)
    && (effect.write == Some(Categorised) ==> effect.expenseFor.Some? || t.receipt in s.past.expensed)
    && (effect.expenseFor.Some? ==>
          && effect.write == Some(Categorised)
          && t.receipt in s.db.rows && !HasExpense(s.db, t.receipt)
          && s.db.rows[t.receipt].owner == effect.expenseFor.value)
  }

  lemma DecideIsOk(s: State, i: nat, out: Outcome)
    requires PipelineInv(s) && i < |s.tasks|
    ensures EffectOk(s, s.tasks[i], Decide(s.db, s.tasks[i], out))
  {
    assert TaskOk(s, s.tasks[i]);
  }

  lemma PerformKeepsInv(s: State, i: nat, effect: Effect)
    requires PipelineInv(s) && i < |s.tasks| && EffectOk(s, s.tasks[i], effect)
    requires effect.write.Some? ==> s.tasks[i].receipt in s.db.rows
    ensures PipelineInv(Perform(s, i, effect))
  {
    var s' := Perform(s, i, effect);
    forall j | 0 <= j < |s'.tasks| ensures TaskOk(s', s'.tasks[j]) {
      if j < |s.tasks| && j != i {
        assert s'.tasks[j] == s.tasks[j];
        assert TaskOk(s, s.tasks[j]);
      }
    }
  }

  // ----- rows coming and going ----------------------------------------------

  lemma NewRowKeepsInv(s: State, g: Ingest, key: BlobKey, s': State)
    requires PipelineInv(s)
    requires s'.db == InsertRow(s, g, key).db && s'.past.expensed == s.past.expensed && s'.tasks == s.tasks
    ensures PipelineInv(s')
  {
    forall i | 0 <= i < |s'.tasks| ensures TaskOk(s', s'.tasks[i]) {
      assert TaskOk(s, s.tasks[i]);
    }
  }

  /** Deleting a receipt detaches its expense instead of deleting it. */
  lemma DropRowKeepsInv(s: State, id: ReceiptId, s': State)
    requires PipelineInv(s)
    requires s'.db == DropRow(s, id).db && s'.past.expensed == s.past.expensed && s'.tasks == s.tasks
    ensures PipelineInv(s')
  {
    forall i | 0 <= i < |s'.tasks| ensures TaskOk(s', s'.tasks[i]) {
      assert TaskOk(s, s.tasks[i]);
    }
  }

  lemma ExpenseEditKeepsInv(s: State, e: Event)
    requires PipelineInv(s) && (e.AddExpense? || e.RemoveExpense?)
    ensures PipelineInv(Next(s, e))
  {
    var s' := Next(s, e);
    forall i | 0 <= i < |s'.tasks| ensures TaskOk(s', s'.tasks[i]) {
      assert TaskOk(s, s.tasks[i]);
    }
  }

  // ----- every event --------------------------------------------------------

  predicate Elsewhere(s: State, s': State) {
    s'.db == s.db && s'.past.expensed == s.past.expensed && TasksHarmless(s, s')
  }

  lemma SyncIsElsewhere(s: State, i: nat, out: Outcome, answer: HistoryAnswer)
    requires i < |s.syncs|
    ensures Elsewhere(s, StepSync(s, i, out, answer))
  {
  }

  lemma IngestKeepsInv(s: State, i: nat, out: Outcome)
    requires PipelineInv(s) && i < |s.ingests|
    ensures PipelineInv(StepIngest(s, i, out))
  {
    var s' := StepIngest(s, i, out);
    var g := s.ingests[i];
    if g.stage.Stored? && s'.db != s.db {
      NewRowKeepsInv(s, g, g.stage.key, s');
    } else {
      StatusesOnlyKeepsInv(s, s');
    }
  }

  lemma DeletionKeepsInv(s: State, i: nat, out: Outcome)
    requires PipelineInv(s) && i < |s.deletions|
    ensures PipelineInv(StepDeletion(s, i, out))
  {
    var s' := StepDeletion(s, i, out);
    if s.deletions[i].stage.Found? && (out == Succeeds || out == AppliedButFails) {
      DropRowKeepsInv(s, s.deletions[i].receipt, s');
    } else {
      StatusesOnlyKeepsInv(s, s');
    }
  }

  lemma NextKeepsInv(s: State, e: Event)
    requires PipelineInv(s)
    ensures PipelineInv(Next(s, e))
  {
    hide PipelineInv, StepIngest, StepDeletion, StepSync, StepRetry, Perform, Decide;
    var s' := Next(s, e);
    match e
    case RunIngest(i, out) => if i < |s.ingests| { IngestKeepsInv(s, i, out); }
    case RunDeletion(i, out) => if i < |s.deletions| { DeletionKeepsInv(s, i, out); }
    case RunTask(i, out) =>
      if i < |s.tasks| { DecideIsOk(s, i, out); PerformKeepsInv(s, i, Decide(s.db, s.tasks[i], out)); }
    case RunSync(i, out, answer) =>
      if i < |s.syncs| { SyncIsElsewhere(s, i, out, answer); StatusesOnlyKeepsInv(s, s'); }
    case AddExpense(_) => ExpenseEditKeepsInv(s, e);
    case RemoveExpense(_) => ExpenseEditKeepsInv(s, e);
    case RunRetry(i, out) => if i < |s.retries| { RetryIsStatusesOnly(s, i, out); StatusesOnlyKeepsInv(s, s'); }
    case _ => RestIsElsewhere(s, e); StatusesOnlyKeepsInv(s, s');
  }

  lemma RetryIsStatusesOnly(s: State, i: nat, out: Outcome)
    requires i < |s.retries|
    ensures StatusesOnly(s, StepRetry(s, i, out)) && TasksHarmless(s, StepRetry(s, i, out))
  {
  }

  lemma RestIsElsewhere(s: State, e: Event)
    requires !e.RunIngest? && !e.RunDeletion? && !e.RunTask? && !e.RunSync? && !e.RunRetry?
    requires !e.AddExpense? && !e.RemoveExpense?
    ensures Elsewhere(s, Next(s, e))
  {
  }

  lemma {:induction false} RunKeepsInv(events: seq<Event>)
    ensures PipelineInv(Run(INITIAL, events))
  {
    if events != [] {
      RunKeepsInv(events[..|events| - 1]);
      NextKeepsInv(Run(INITIAL, events[..|events| - 1]), events[|events| - 1]);
    }
  }

  // ----- what it means ------------------------------------------------------

  /** Two expenses never point at the same receipt. */
  lemma {:induction false} AtMostOneExpense(events: seq<Event>, a: ExpenseId, b: ExpenseId)
    requires
      var expenses := Run(INITIAL, events).db.expenses;
      a in expenses && b in expenses && expenses[a].receipt.Some? && expenses[a].receipt == expenses[b].receipt
    ensures a == b
  {
    RunKeepsInv(events);
  }

  /** An expense's receipt exists and belongs to the expense's user. */
  lemma {:induction false} ExpenseBelongsToReceiptOwner(events: seq<Event>, e: ExpenseId)
    requires e in Run(INITIAL, events).db.expenses && Run(INITIAL, events).db.expenses[e].receipt.Some?
    ensures
      var db := Run(INITIAL, events).db;
      var id := db.expenses[e].receipt.value;
      id in db.rows && db.rows[id].owner == db.expenses[e].owner
  {
    RunKeepsInv(events);
  }

  /** Categorised means an expense was committed for the receipt at some point. */
  lemma {:induction false} CategorisedImpliesExpensed(events: seq<Event>, id: ReceiptId)
    requires id in Run(INITIAL, events).db.rows && Run(INITIAL, events).db.rows[id].status == Categorised
    ensures EverExpensed(events, id)
  {
    RunKeepsInv(events);
    ExpensedWasReal(events, id);
  }
}
