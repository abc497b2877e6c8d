/** The history sets say what they claim: each entry goes back to a state of the same run. */
module History {
  import opened Domain
  import opened Mail
  import opened Machine
  import opened Shapes

  /** At some moment of the run an expense for the receipt was in the database. */
  ghost predicate EverExpensed(events: seq<Event>, id: ReceiptId) {
    exists k | 0 <= k <= |events| :: HasExpense(Run(INITIAL, events[..k]).db, id)
  }

  /** At some moment of the run the user had a receipt for the message. */
  ghost predicate EverReceived(events: seq<Event>, owner: UserId, message: MessageId) {
    exists k | 0 <= k <= |events| :: HasMessage(Run(INITIAL, events[..k]), owner, Some(message))
  }

  lemma PerformExpenses(s: State, i: nat, out: Outcome, id: ReceiptId)
    requires i < |s.tasks| && id in StepTask(s, i, out).past.expensed && id !in s.past.expensed
    ensures HasExpense(StepTask(s, i, out).db, id)
  {
    var s' := StepTask(s, i, out);
    assert s'.db.expenses[s.db.nextExpense].receipt == Some(id);
  }

  lemma NextExpenses(s: State, e: Event, id: ReceiptId)
    requires id in Next(s, e).past.expensed && id !in s.past.expensed
    ensures HasExpense(Next(s, e).db, id)
  {
    if Outside(e) {
      OutsideShape(s, e);
    } else {
      match e
      case RunTask(i, out) => PerformExpenses(s, i, out, id);
      case RunSync(i, out, answer) => SyncShape(s, i, out, answer);
      case RunDeletion(_, _) => DeletionShape(s, e);
      case DeletionDies(_) => DeletionShape(s, e);
      case RunRetry(i, out) => RetryShape(s, i, out);
      case _ =>
    }
  }

  lemma {:induction false} ExpensedWasReal(events: seq<Event>, id: ReceiptId)
    requires id in Run(INITIAL, events).past.expensed
    ensures EverExpensed(events, id)
  {
    if events != [] {
      var init := events[..|events| - 1];
      if id in Run(INITIAL, init).past.expensed {
        ExpensedWasReal(init, id);
        var k :| 0 <= k <= |init| && HasExpense(Run(INITIAL, init[..k]).db, id);
        assert events[..k] == init[..k];
      } else {
        NextExpenses(Run(INITIAL, init), events[|events| - 1], id);
        assert events[..|events|] == events;
      }
    }
  }

  lemma CommitDelivers(s: State, i: nat, out: Outcome, owner: UserId, message: MessageId)
    requires i < |s.ingests| && (owner, message) in StepIngest(s, i, out).past.delivered
    requires (owner, message) !in s.past.delivered
    ensures HasMessage(StepIngest(s, i, out), owner, Some(message))
  {
    var s' := StepIngest(s, i, out);
    assert s.ingests[i].stage.Stored?;
    assert s.db.nextRow in s'.db.rows;
  }

  lemma NextDelivers(s: State, e: Event, owner: UserId, message: MessageId)
    requires (owner, message) in Next(s, e).past.delivered && (owner, message) !in s.past.delivered
    ensures HasMessage(Next(s, e), owner, Some(message))
  {
    if Outside(e) {
      OutsideShape(s, e);
    } else {
      match e
      case RunIngest(i, out) => CommitDelivers(s, i, out, owner, message);
      case RunTask(i, out) => WorkerShape(s, i, out);
      case RunSync(i, out, answer) => SyncShape(s, i, out, answer);
      case RunDeletion(_, _) => DeletionShape(s, e);
      case DeletionDies(_) => DeletionShape(s, e);
      case RunRetry(i, out) => RetryShape(s, i, out);
      case _ =>
    }
  }

  lemma {:induction false} DeliveredWasReal(events: seq<Event>, owner: UserId, message: MessageId)
    requires (owner, message) in Run(INITIAL, events).past.delivered
    ensures EverReceived(events, owner, message)
  {
    if events != [] {
      var init := events[..|events| - 1];
      if (owner, message) in Run(INITIAL, init).past.delivered {
        DeliveredWasReal(init, owner, message);
        var k :| 0 <= k <= |init| && HasMessage(Run(INITIAL, init[..k]), owner, Some(message));
        assert events[..k] == init[..k];
      } else {
        NextDelivers(Run(INITIAL, init), events[|events| - 1], owner, message);
        assert events[..|events|] == events;
      }
    }
  }

  // ----- what the other sets record -----------------------------------------

  // An entry of one of the history sets.
  datatype Fact =
    | Attached(key: BlobKey)      // a row pointed at the key
    | LetGo(key: BlobKey)         // the key was let go with its blob possibly in the store
    | Unacknowledged(key: BlobKey)  // the key's row committed and its caller saw an exception
    | WipedOut(key: BlobKey)      // the clean-up after a failed commit removed the blob
    | Stranded(id: ReceiptId)     // the receipt's enqueueing did not happen, or its caller did not get there

  predicate Recorded(s: State, f: Fact) {
    match f
    case Attached(key) => key in s.past.attached
    case LetGo(key) => key in s.past.excused
    case Unacknowledged(key) => key in s.past.unacked
    case WipedOut(key) => key in s.past.wiped
    case Stranded(id) => id in s.past.stranded
  }

  /** The commit of the row for `key` by ingest `i` takes effect. */
  predicate InsertsRow(s: State, i: nat, out: Outcome, key: BlobKey) {
    && i < |s.ingests| && s.ingests[i].stage == Stored(key) && Applied(out)
    && !ViolatesMessageIndex(s, s.ingests[i].owner, s.ingests[i].external)
  }

  /** A put whose acknowledgement was lost. */
  predicate LosesPut(s: State, i: nat, out: Outcome, key: BlobKey) {
    && i < |s.ingests| && s.ingests[i].stage == Looping && out == AppliedButFails && key == s.bucket.nextKey
    && s.ingests[i].pos < |s.ingests[i].parts|
    && Screen(s.ingests[i].external.Some?, s.ingests[i].parts[s.ingests[i].pos]).Accept?
  }

  /** The event, happening in the state, is what the fact says. */
  predicate Causes(s: State, e: Event, f: Fact) {
    match f
    case Attached(key) => e.RunIngest? && InsertsRow(s, e.i, e.out, key)
    case Unacknowledged(key) => e.RunIngest? && InsertsRow(s, e.i, e.out, key) && e.out == AppliedButFails
    case WipedOut(key) =>
      e.RunIngest? && e.i < |s.ingests| && s.ingests[e.i].stage == RollingBack(key) && Applied(e.out)
    case LetGo(key) =>
      (match e
       case RunIngest(i, out) =>
         LosesPut(s, i, out, key) || (i < |s.ingests| && s.ingests[i].stage == RollingBack(key) && !Applied(out))
       case IngestDies(i) =>
         i < |s.ingests| && (s.ingests[i].stage == Stored(key) || s.ingests[i].stage == RollingBack(key))
       case RunDeletion(i, out) =>
         i < |s.deletions| &&
           ((s.deletions[i].stage == Found(key) && out == AppliedButFails)
            || (s.deletions[i].stage == Wiping(key) && !Applied(out)))
       case DeletionDies(i) => i < |s.deletions| && s.deletions[i].stage == Wiping(key)
       case _ => false)
    case Stranded(id) =>
      (match e
       case RunIngest(i, out) =>
         i < |s.ingests| &&
           ((s.ingests[i].stage == Persisted(id) && !Applied(out))
            || (s.ingests[i].stage.Stored? && id == s.db.nextRow && out == AppliedButFails
                && InsertsRow(s, i, out, s.ingests[i].stage.key)))
       case IngestDies(i) => i < |s.ingests| && s.ingests[i].stage == Persisted(id)
       case RunRetry(i, out) =>
         i < |s.retries| && s.retries[i].receipt == id &&
           ((s.retries[i].stage == Resetting && out == AppliedButFails && id in s.db.rows)
            || (s.retries[i].stage == Enqueueing && !Applied(out)))
       case RetryDies(i) => i < |s.retries| && s.retries[i].receipt == id && s.retries[i].stage == Enqueueing
       case _ => false)
  }

  /** Some event of the run was what the fact says. */
  ghost predicate Happened(events: seq<Event>, f: Fact) {
    exists k :: HappenedAt(events, k, f)
  }

  predicate HappenedAt(events: seq<Event>, k: int, f: Fact) {
    0 <= k < |events| && Causes(Run(INITIAL, events[..k]), events[k], f)
  }

  predicate Adds(s: State, e: Event, f: Fact) {
    Recorded(Next(s, e), f) <==> Recorded(s, f) || Causes(s, e, f)
  }

  lemma IngestRecords(s: State, i: nat, out: Outcome, f: Fact)
    ensures Adds(s, RunIngest(i, out), f)
  {
  }

  lemma IngestCrashRecords(s: State, i: nat, f: Fact)
    ensures Adds(s, IngestDies(i), f)
  {
  }

  lemma DeletionRecords(s: State, e: Event, f: Fact)
    requires e.RunDeletion? || e.DeletionDies?
    ensures Adds(s, e, f)
  {
  }

  lemma RetryRecords(s: State, e: Event, f: Fact)
    requires e.RunRetry? || e.RetryDies?
    ensures Adds(s, e, f)
  {
  }

  lemma RestRecordsNothing(s: State, e: Event, f: Fact)
    requires !e.RunIngest? && !e.IngestDies? && !e.RunDeletion? && !e.DeletionDies? && !e.RunRetry? && !e.RetryDies?
    ensures Adds(s, e, f)
  {
    if Outside(e) {
      OutsideShape(s, e);
    } else {
      match e
      case RunTask(i, out) => if i < |s.tasks| { WorkerShape(s, i, out); }
      case RunSync(i, out, answer) => if i < |s.syncs| { SyncShape(s, i, out, answer); }
      case _ =>
    }
  }

  /** An event adds exactly the facts it causes. */
  lemma NextRecords(s: State, e: Event, f: Fact)
    ensures Adds(s, e, f)
  {
    hide Adds;
    match e
    case RunIngest(i, out) => IngestRecords(s, i, out, f);
    case IngestDies(i) => IngestCrashRecords(s, i, f);
    case RunDeletion(_, _) => DeletionRecords(s, e, f);
    case DeletionDies(_) => DeletionRecords(s, e, f);
    case RunRetry(_, _) => RetryRecords(s, e, f);
    case RetryDies(_) => RetryRecords(s, e, f);
    case _ => RestRecordsNothing(s, e, f);
  }

  /** The history sets are exactly the history: a fact is recorded if and only if an event of the run
      was that fact. */
  lemma {:induction false} RecordedIffHappened(events: seq<Event>, f: Fact)
    ensures Recorded(Run(INITIAL, events), f) <==> Happened(events, f)
  {
    hide Next, Causes, Recorded;
    if events == [] {
      NothingRecorded(f);
    } else {
      var init, k := events[..|events| - 1], |events| - 1;
      RecordedIffHappened(init, f);
      NextRecords(Run(INITIAL, init), events[k], f);
      assert HappenedAt(events, k, f) <==> Causes(Run(INITIAL, init), events[k], f);
      forall j | 0 <= j < k ensures HappenedAt(events, j, f) <==> HappenedAt(init, j, f) {
        assert events[..j] == init[..j];
      }
    }
  }

  lemma NothingRecorded(f: Fact)
    ensures !Recorded(INITIAL, f)
  {
  }
}
