/** Gmail coverage: the sync cursor never passes a receipt that was not ingested. */
module Coverage {
  import opened Domain
  import opened Mail
  import opened Machine
  import opened Shapes
  import opened History

  // ----- the invariant ------------------------------------------------------

  predicate Delivered(s: State, owner: UserId, message: MessageId) {
    (owner, message) in s.past.delivered
  }

  /** If the message carries an acceptable attachment, a receipt was committed for it. */
  predicate Handled(s: State, owner: UserId, message: MessageId) {
    message in s.mail.contents && (CarriesReceipt(s.mail.contents[message]) ==> Delivered(s, owner, message))
  }

  /** Every message after the seed of connection `c` and up to `upto` was handled. */
  predicate Covered(s: State, c: nat, upto: HistoryId)
    requires c < |s.mail.connections|
  {
    forall entry <- s.mail.log | s.mail.connections[c].seed < entry.history <= upto ::
      Handled(s, s.mail.connections[c].owner, entry.message)
  }

  predicate LogOk(s: State) {
    forall entry <- s.mail.log :: entry.history <= s.mail.head && entry.message in s.mail.contents
  }

  predicate ConnectionOk(s: State, c: nat)
    requires c < |s.mail.connections|
  {
    var cursor := s.mail.connections[c].cursor;
    cursor.Some? ==> cursor.value <= s.mail.head && Covered(s, c, cursor.value)
  }

  predicate IngestOk(s: State, g: Ingest) {
    && g.pos <= |g.parts|
    && (g.stage.Stored? || g.stage.Persisted? ==> g.pos < |g.parts|)
    && (g.stage == Finished(false) ==> g.pos == |g.parts|)
    && (g.external.Some? ==>
          && (g.stage.Persisted? || g.stage == Finished(true) ==> Delivered(s, g.owner, g.external.value))
          && (forall j | 0 <= j < g.pos && Acceptable(g.parts[j]) :: Delivered(s, g.owner, g.external.value)))
    && (g.external.None? ==> g.stage != Checking)
  }

  predicate WalkOk(s: State, y: Sync, from: HistoryId, todo: seq<MessageId>, pos: nat, reseed: bool)
    requires y.connection < |s.mail.connections|
  {
    && from <= s.mail.head && Covered(s, y.connection, from)
    && pos <= |todo|
    && (!reseed ==> forall entry <- s.mail.log | from < entry.history <= y.push :: entry.message in todo)
    && (forall j | 0 <= j < pos :: Handled(s, s.mail.connections[y.connection].owner, todo[j]))
  }

  predicate AwaitOk(s: State, y: Sync, message: MessageId, delivery: nat)
    requires y.connection < |s.mail.connections|
  {
    && delivery < |s.ingests| && message in s.mail.contents
    && s.ingests[delivery].owner == s.mail.connections[y.connection].owner
    && s.ingests[delivery].external == Some(message)
    && s.ingests[delivery].parts == Attachments(s.mail.contents[message])
  }

  predicate SyncOk(s: State, y: Sync) {
    && y.connection < |s.mail.connections| && y.push <= s.mail.head
    && match y.stage
       case Opened(start) => start.Some? ==> start.value <= s.mail.head && Covered(s, y.connection, start.value)
       case Listing(from, upto) =>
         from <= s.mail.head && Covered(s, y.connection, from) && y.push <= upto <= s.mail.head
       case Walking(from, todo, pos, reseed) => WalkOk(s, y, from, todo, pos, reseed)
       case Awaiting(from, todo, pos, reseed, delivery) =>
         WalkOk(s, y, from, todo, pos, reseed) && pos < |todo| && AwaitOk(s, y, todo[pos], delivery)
       case _ => true
  }

  predicate RowsDelivered(s: State) {
    forall id <- s.db.rows | s.db.rows[id].external.Some? ::
      Delivered(s, s.db.rows[id].owner, s.db.rows[id].external.value)
  }

  predicate CoverageInv(s: State) {
    && LogOk(s) && RowsDelivered(s)
    && (forall c | 0 <= c < |s.mail.connections| :: ConnectionOk(s, c))
    && (forall i | 0 <= i < |s.ingests| :: IngestOk(s, s.ingests[i]))
    && (forall i | 0 <= i < |s.syncs| :: SyncOk(s, s.syncs[i]))
  }

  // ----- growth -------------------------------------------------------------

  /** Everything coverage is measured against only grows, and new mail lies beyond the old head. */
  predicate Grows(s: State, s': State) {
    && s.past.delivered <= s'.past.delivered
    && s.mail.head <= s'.mail.head
    && s.mail.contents.Keys <= s'.mail.contents.Keys
    && (forall m <- s.mail.contents :: s'.mail.contents[m] == s.mail.contents[m])
    && (forall entry <- s'.mail.log :: entry in s.mail.log || entry.history > s.mail.head)
    && |s.mail.connections| <= |s'.mail.connections|
    && (forall c | 0 <= c < |s.mail.connections| ::
          && s'.mail.connections[c].owner == s.mail.connections[c].owner
          && s'.mail.connections[c].seed >= s.mail.connections[c].seed)
  }

  /** Ingests keep whom and what they deliver. */
  predicate SameDeliveries(s: State, s': State) {
    && |s.ingests| <= |s'.ingests|
    && forall i | 0 <= i < |s.ingests| ::
         && s'.ingests[i].owner == s.ingests[i].owner && s'.ingests[i].external == s.ingests[i].external
         && s'.ingests[i].parts == s.ingests[i].parts
  }

  lemma CoveredGrows(s: State, s': State, c: nat, upto: HistoryId)
    requires Grows(s, s') && c < |s.mail.connections| && upto <= s.mail.head && Covered(s, c, upto)
    ensures Covered(s', c, upto)
  {
  }

  lemma SyncOkGrows(s: State, s': State, y: Sync)
    requires Grows(s, s') && SameDeliveries(s, s') && SyncOk(s, y)
    ensures SyncOk(s', y)
  {
    match y.stage
    case Opened(start) => if start.Some? { CoveredGrows(s, s', y.connection, start.value); }
    case Listing(from, _) => CoveredGrows(s, s', y.connection, from);
    case Walking(from, _, _, _) => CoveredGrows(s, s', y.connection, from);
    case Awaiting(from, _, _, _, _) => CoveredGrows(s, s', y.connection, from);
    case _ =>
  }

  lemma IngestOkGrows(s: State, s': State, g: Ingest)
    requires s.past.delivered <= s'.past.delivered && IngestOk(s, g)
    ensures IngestOk(s', g)
  {
  }

  /** A step that moves no connection, at most one ingest and no sync. */
  lemma GrowthKeepsInv(s: State, s': State)
    requires CoverageInv(s) && Grows(s, s') && SameDeliveries(s, s') && LogOk(s') && RowsDelivered(s')
    requires forall c | 0 <= c < |s.mail.connections| :: s'.mail.connections[c].cursor == s.mail.connections[c].cursor
    requires forall c | |s.mail.connections| <= c < |s'.mail.connections| :: s'.mail.connections[c].cursor == None
    requires forall i | 0 <= i < |s'.ingests| ::
               (i < |s.ingests| && s'.ingests[i] == s.ingests[i]) || IngestOk(s', s'.ingests[i])
    requires forall i | 0 <= i < |s'.syncs| ::
               (i < |s.syncs| && s'.syncs[i] == s.syncs[i]) || SyncOk(s', s'.syncs[i])
    ensures CoverageInv(s')
  {
    forall c | 0 <= c < |s'.mail.connections| ensures ConnectionOk(s', c) {
      if c < |s.mail.connections| && s.mail.connections[c].cursor.Some? {
        assert ConnectionOk(s, c);
        CoveredGrows(s, s', c, s.mail.connections[c].cursor.value);
      }
    }
    forall i | 0 <= i < |s'.ingests| ensures IngestOk(s', s'.ingests[i]) {
      if i < |s.ingests| && s'.ingests[i] == s.ingests[i] { IngestOkGrows(s, s', s.ingests[i]); }
    }
    forall i | 0 <= i < |s'.syncs| ensures SyncOk(s', s'.syncs[i]) {
      if i < |s.syncs| && s'.syncs[i] == s.syncs[i] { SyncOkGrows(s, s', s.syncs[i]); }
    }
  }

  // ----- ingest -------------------------------------------------------------

  lemma IngestStepOk(s: State, i: nat, out: Outcome)
    requires CoverageInv(s) && i < |s.ingests|
    ensures IngestOk(StepIngest(s, i, out), StepIngest(s, i, out).ingests[i])
  {
    hide SyncOk, CarriesReceipt;
    assert IngestOk(s, s.ingests[i]);
    if s.ingests[i].stage.Persisted? { EnqueueStepOk(s, i, out); }
  }

  /** Moving past an attachment: its receipt is committed by then. */
  lemma EnqueueStepOk(s: State, i: nat, out: Outcome)
    requires i < |s.ingests| && IngestOk(s, s.ingests[i]) && s.ingests[i].stage.Persisted?
    ensures IngestOk(StepIngest(s, i, out), StepIngest(s, i, out).ingests[i])
  {
  }

  /** An ingest step moves itself; only a commit adds to rows and deliveries. */
  predicate IngestGrows(s: State, i: nat, s': State) {
    && i < |s.ingests| && |s'.ingests| == |s.ingests|
    && s'.ingests[i].(pos := s.ingests[i].pos, stage := s.ingests[i].stage) == s.ingests[i]
    && (forall j | 0 <= j < |s.ingests| && j != i :: s'.ingests[j] == s.ingests[j])
    && s'.mail == s.mail && s'.syncs == s.syncs
    && s.past.delivered <= s'.past.delivered
    && RowsDelivered(s')
  }

  lemma CommitGrows(s: State, i: nat, out: Outcome)
    requires CoverageInv(s) && i < |s.ingests| && s.ingests[i].stage.Stored?
    ensures IngestGrows(s, i, StepIngest(s, i, out))
  {
  }

  lemma IngestStepGrows(s: State, i: nat, out: Outcome)
    requires CoverageInv(s) && i < |s.ingests|
    ensures IngestGrows(s, i, StepIngest(s, i, out))
  {
    if s.ingests[i].stage.Stored? { CommitGrows(s, i, out); }
  }

  lemma IngestKeepsInv(s: State, i: nat, out: Outcome)
    requires CoverageInv(s) && i < |s.ingests|
    ensures CoverageInv(StepIngest(s, i, out))
  {
    IngestStepOk(s, i, out);
    IngestStepGrows(s, i, out);
    GrowthKeepsInv(s, StepIngest(s, i, out));
  }

  lemma IngestCrashKeepsInv(s: State, i: nat)
    requires CoverageInv(s) && i < |s.ingests|
    ensures CoverageInv(CrashIngest(s, i))
  {
    var s' := CrashIngest(s, i);
    assert IngestOk(s, s.ingests[i]);
    GrowthKeepsInv(s, s');
  }

  // ----- sync ---------------------------------------------------------------

  lemma {:induction false} DistinctKeepsAll(ids: seq<MessageId>)
    ensures forall id :: id in Distinct(ids) <==> id in ids
    ensures forall a, b | 0 <= a < b < |Distinct(ids)| :: Distinct(ids)[a] != Distinct(ids)[b]
  {
    if ids != [] {
      DistinctKeepsAll(ids[..|ids| - 1]);
      assert ids == ids[..|ids| - 1] + [ids[|ids| - 1]];
    }
  }

  /** In order of first appearance: what was seen first stays first, whatever follows. */
  lemma {:induction false} DistinctKeepsOrder(first: seq<MessageId>, more: seq<MessageId>)
    ensures Distinct(first) <= Distinct(first + more)
    decreases |more|
  {
    if more == [] {
      assert first + more == first;
    } else {
      assert (first + more)[..|first + more| - 1] == first + more[..|more| - 1];
      DistinctKeepsOrder(first, more[..|more| - 1]);
    }
  }

  /** Every page, one after the other. */
  lemma {:induction false} ConcatIsAllPages(pages: seq<seq<MessageId>>, id: MessageId)
    ensures id in Concat(pages) <==> exists k | 0 <= k < |pages| :: id in pages[k]
    ensures pages != [] ==> Concat(pages) == Concat(pages[..|pages| - 1]) + pages[|pages| - 1]
  {
    if pages != [] {
      var init := pages[..|pages| - 1];
      ConcatIsAllPages(init, id);
      forall k | 0 <= k < |init| ensures pages[k] == init[k] {
      }
    }
  }

  /** A sync step that leaves cursors alone. */
  lemma SyncMoveKeepsInv(s: State, i: nat, stage: SyncStage)
    requires CoverageInv(s) && i < |s.syncs| && SyncOk(s, s.syncs[i].(stage := stage))
    ensures CoverageInv(SyncAt(s, i, stage))
  {
    GrowthKeepsInv(s, SyncAt(s, i, stage));
  }

  lemma SyncAgainKeepsInv(s: State, i: nat)
    requires CoverageInv(s) && i < |s.syncs|
    ensures CoverageInv(SyncAgain(s, i))
  {
    assert SyncOk(s, s.syncs[i]);
    GrowthKeepsInv(s, SyncAgain(s, i));
  }

  /** Writing the cursor is sound when seeding, or when everything up to the push was handled. */
  lemma MoveCursorKeepsInv(s: State, c: nat, push: HistoryId, seeding: bool)
    requires CoverageInv(s) && c < |s.mail.connections| && push <= s.mail.head
    requires seeding || Covered(s, c, push)
    ensures CoverageInv(MoveCursor(s, c, push, seeding))
  {
    var s' := MoveCursor(s, c, push, seeding);
    forall d | 0 <= d < |s'.mail.connections| ensures ConnectionOk(s', d) {
      assert ConnectionOk(s, d);
      if d == c {
        if !seeding { CoveredGrows(s, s', c, push); }
      } else if s.mail.connections[d].cursor.Some? {
        CoveredGrows(s, s', d, s.mail.connections[d].cursor.value);
      }
    }
    forall j | 0 <= j < |s'.ingests| ensures IngestOk(s', s'.ingests[j]) { IngestOkGrows(s, s', s.ingests[j]); }
    forall j | 0 <= j < |s'.syncs| ensures SyncOk(s', s'.syncs[j]) { SyncOkGrows(s, s', s.syncs[j]); }
  }

  /** The end of the walk: the window (from, push] joins what was covered before. */
  lemma CloseSyncKeepsInv(s: State, i: nat, out: Outcome)
    requires CoverageInv(s) && i < |s.syncs| && s.syncs[i].stage.Walking?
    requires s.syncs[i].connection < |s.mail.connections| && s.syncs[i].stage.pos >= |s.syncs[i].stage.todo|
    ensures CoverageInv(CloseSync(s, i, s.syncs[i].stage.from, s.syncs[i].stage.reseed, out))
  {
    var y := s.syncs[i];
    var from, todo, reseed := y.stage.from, y.stage.todo, y.stage.reseed;
    assert SyncOk(s, y);
    if !reseed {
      forall entry <- s.mail.log | s.mail.connections[y.connection].seed < entry.history <= y.push
        ensures Handled(s, s.mail.connections[y.connection].owner, entry.message)
      {
        if entry.history > from {
          var j :| 0 <= j < |todo| && todo[j] == entry.message;
        }
      }
    }
    var moved := if from == y.push then s else MoveCursor(s, y.connection, y.push, reseed);
    if from != y.push { MoveCursorKeepsInv(s, y.connection, y.push, reseed); }
    if out == Succeeds { SyncMoveKeepsInv(moved, i, Synced); }
    else if out == AppliedButFails { SyncAgainKeepsInv(moved, i); }
    else { SyncAgainKeepsInv(s, i); }
  }

  /** Handing one message to the inbound-email service. */
  lemma StartDeliveryKeepsInv(s: State, i: nat)
    requires CoverageInv(s) && i < |s.syncs| && s.syncs[i].stage.Walking?
    requires s.syncs[i].stage.pos < |s.syncs[i].stage.todo|
    requires s.syncs[i].stage.todo[s.syncs[i].stage.pos] in s.mail.contents
    ensures CoverageInv(StepSync(s, i, Succeeds, TooOld))
  {
    var y := s.syncs[i];
    assert SyncOk(s, y);
    var message := y.stage.todo[y.stage.pos];
    var payload := s.mail.contents[message];
    CarriesReceiptIffFetched(payload);
    var s' := StepSync(s, i, Succeeds, TooOld);
    if Attachments(payload) == [] {
      assert !CarriesReceipt(payload);
      SyncMoveKeepsInv(s, i, Walking(y.stage.from, y.stage.todo, y.stage.pos + 1, y.stage.reseed));
    } else {
      SyncOkGrows(s, s', y);
      GrowthKeepsInv(s, s');
    }
  }

  /** The delivery of the current message ended without an exception: the message is handled. */
  lemma FinishDeliveryKeepsInv(s: State, i: nat)
    requires CoverageInv(s) && i < |s.syncs| && s.syncs[i].stage.Awaiting?
    requires s.syncs[i].stage.delivery < |s.ingests| && s.ingests[s.syncs[i].stage.delivery].stage.Finished?
    ensures
      var at := s.syncs[i].stage;
      CoverageInv(SyncAt(s, i, Walking(at.from, at.todo, at.pos + 1, at.reseed)))
  {
    var y := s.syncs[i];
    var at := y.stage;
    assert SyncOk(s, y);
    assert IngestOk(s, s.ingests[at.delivery]);
    CarriesReceiptIffFetched(s.mail.contents[at.todo[at.pos]]);
    assert Handled(s, s.mail.connections[y.connection].owner, at.todo[at.pos]);
    SyncMoveKeepsInv(s, i, Walking(at.from, at.todo, at.pos + 1, at.reseed));
  }

  lemma OpenedKeepsInv(s: State, i: nat, out: Outcome, answer: HistoryAnswer)
    requires CoverageInv(s) && i < |s.syncs| && (s.syncs[i].stage.Pending? || s.syncs[i].stage.Opened?)
    ensures CoverageInv(StepSync(s, i, out, answer))
  {
    var y := s.syncs[i];
    assert SyncOk(s, y);
    assert ConnectionOk(s, y.connection);
    var s' := StepSync(s, i, out, answer);
    if s' == SyncAgain(s, i) {
      SyncAgainKeepsInv(s, i);
    } else if y.stage.Pending? {
      SyncMoveKeepsInv(s, i, s'.syncs[i].stage);
    } else if y.stage.start.Some? {
      SyncMoveKeepsInv(s, i, Listing(y.stage.start.value, s.mail.head));
    } else {
      MoveCursorKeepsInv(s, y.connection, y.push, true);
      var moved := MoveCursor(s, y.connection, y.push, true);
      if out == Succeeds { SyncMoveKeepsInv(moved, i, Synced); } else { SyncAgainKeepsInv(moved, i); }
    }
  }

  lemma ListingKeepsInv(s: State, i: nat, out: Outcome, answer: HistoryAnswer)
    requires CoverageInv(s) && i < |s.syncs| && s.syncs[i].stage.Listing?
    ensures CoverageInv(StepSync(s, i, out, answer))
  {
    var y := s.syncs[i];
    assert SyncOk(s, y);
    if out != Succeeds {
      SyncAgainKeepsInv(s, i);
    } else if answer.TooOld? {
      SyncMoveKeepsInv(s, i, Walking(y.stage.from, [], 0, true));
    } else if CoversHistory(s, y.stage.from, y.stage.upto, answer.pages) {
      DistinctKeepsAll(Concat(answer.pages));
      SyncMoveKeepsInv(s, i, Walking(y.stage.from, Distinct(Concat(answer.pages)), 0, false));
    }
  }

  lemma SyncKeepsInv(s: State, i: nat, out: Outcome, answer: HistoryAnswer)
    requires CoverageInv(s) && i < |s.syncs|
    ensures CoverageInv(StepSync(s, i, out, answer))
  {
    var y := s.syncs[i];
    assert SyncOk(s, y);
    match y.stage
    case Pending => OpenedKeepsInv(s, i, out, answer);
    case Opened(_) => OpenedKeepsInv(s, i, out, answer);
    case Listing(_, _) => ListingKeepsInv(s, i, out, answer);
    case Walking(from, todo, pos, reseed) =>
      if pos >= |todo| {
        CloseSyncKeepsInv(s, i, out);
      } else if out != Succeeds || todo[pos] !in s.mail.contents {
        SyncAgainKeepsInv(s, i);
      } else {
        StartDeliveryKeepsInv(s, i);
      }
    case Awaiting(_, _, _, _, delivery) =>
      if s.ingests[delivery].stage.Finished? {
        FinishDeliveryKeepsInv(s, i);
      } else if s.ingests[delivery].stage == Raised || s.ingests[delivery].stage == Dead {
        SyncAgainKeepsInv(s, i);
      }
    case _ =>
  }

  // ----- every event --------------------------------------------------------

  /** Deleting, retrying and working on receipts touches neither mail nor deliveries. */
  lemma RowWorkKeepsInv(s: State, e: Event)
    requires CoverageInv(s) && (e.RunDeletion? || e.RunRetry? || e.DeletionDies? || e.RetryDies?)
    ensures CoverageInv(Next(s, e))
  {
    match e {
      case RunRetry(i, out) => if i < |s.retries| { RetryShape(s, i, out); }
      case RetryDies(i) => if i < |s.retries| { RetryCrashShape(s, i); }
      case _ => DeletionShape(s, e);
    }
    GrowthKeepsInv(s, Next(s, e));
  }

  lemma WorkerKeepsInv(s: State, i: nat, out: Outcome)
    requires CoverageInv(s) && i < |s.tasks|
    ensures CoverageInv(StepTask(s, i, out))
  {
    WorkerShape(s, i, out);
    GrowthKeepsInv(s, StepTask(s, i, out));
  }

  lemma MailKeepsInv(s: State, e: Event)
    requires CoverageInv(s) && (e.MailArrives? || e.HeadMoves? || e.Connect?)
    ensures CoverageInv(Next(s, e))
  {
    GrowthKeepsInv(s, Next(s, e));
  }

  lemma TaskControlKeepsInv(s: State, e: Event)
    requires CoverageInv(s) && (e.TaskRedelivered? || e.TaskDuplicated? || e.TaskKilled?)
    ensures CoverageInv(Next(s, e))
  {
    GrowthKeepsInv(s, Next(s, e));
  }

  lemma SyncRestartKeepsInv(s: State, i: nat)
    requires CoverageInv(s) && i < |s.syncs|
    ensures CoverageInv(RestartSync(s, i))
  {
    assert SyncOk(s, s.syncs[i]);
    SyncMoveKeepsInv(s, i, Pending);
  }

  lemma NextKeepsInv(s: State, e: Event)
    requires CoverageInv(s)
    ensures CoverageInv(Next(s, e))
  {
    hide CoverageInv, StepIngest, StepSync, StepTask, SyncAt;
    var s' := Next(s, e);
    match e
    case RunIngest(i, out) => if i < |s.ingests| { IngestKeepsInv(s, i, out); }
    case IngestDies(i) => if i < |s.ingests| { IngestCrashKeepsInv(s, i); }
    case RunSync(i, out, answer) => if i < |s.syncs| { SyncKeepsInv(s, i, out, answer); }
    case SyncRedelivered(i) => if i < |s.syncs| { SyncRestartKeepsInv(s, i); }
    case MailArrives(_, _, _) => MailKeepsInv(s, e);
    case HeadMoves(_) => MailKeepsInv(s, e);
    case Connect(_) => MailKeepsInv(s, e);
    case RunTask(i, out) => if i < |s.tasks| { WorkerKeepsInv(s, i, out); }
    case TaskRedelivered(_) => TaskControlKeepsInv(s, e);
    case TaskDuplicated(_) => TaskControlKeepsInv(s, e);
    case TaskKilled(_) => TaskControlKeepsInv(s, e);
    case RunDeletion(_, _) => RowWorkKeepsInv(s, e);
    case DeletionDies(_) => RowWorkKeepsInv(s, e);
    case RunRetry(_, _) => RowWorkKeepsInv(s, e);
    case RetryDies(_) => RowWorkKeepsInv(s, e);
    case _ => BeginKeepsInv(s, e);
  }

  lemma BeginKeepsInv(s: State, e: Event)
    requires CoverageInv(s)
    requires e.BeginUpload? || e.BeginDelivery? || e.BeginDeletion? || e.BeginRetry? || e.AddExpense?
             || e.RemoveExpense? || e.PushArrives?
    ensures CoverageInv(Next(s, e))
  {
    OutsideShape(s, e);
    GrowthKeepsInv(s, Next(s, e));
  }

  lemma {:induction false} RunKeepsInv(events: seq<Event>)
    ensures CoverageInv(Run(INITIAL, events))
  {
    if events != [] {
      RunKeepsInv(events[..|events| - 1]);
      NextKeepsInv(Run(INITIAL, events[..|events| - 1]), events[|events| - 1]);
    }
  }

  /** The event writes a connection's cursor: it seeds a null one, or closes a sync whose push differs from
      the cursor it read. */
  predicate WritesCursor(s: State, e: Event, c: nat) {
    && e.RunSync? && e.i < |s.syncs| && s.syncs[e.i].connection == c < |s.mail.connections| && Applied(e.out)
    && match s.syncs[e.i].stage
       case Opened(start) => start.None?
       case Walking(from, todo, pos, _) => pos >= |todo| && from != s.syncs[e.i].push
       case _ => false
  }

  lemma IngestKeepsCursors(s: State, i: nat, out: Outcome)
    ensures Next(s, RunIngest(i, out)).mail == s.mail && Next(s, IngestDies(i)).mail == s.mail
  {
  }

  predicate CursorFollows(s: State, e: Event, c: nat)
    requires c < |s.mail.connections|
  {
    && c < |Next(s, e).mail.connections|
    && Next(s, e).mail.connections[c].cursor ==
         if WritesCursor(s, e, c) then Some(s.syncs[e.i].push) else s.mail.connections[c].cursor
  }

  lemma SyncWritesCursor(s: State, i: nat, out: Outcome, answer: HistoryAnswer, c: nat)
    requires c < |s.mail.connections|
    ensures CursorFollows(s, RunSync(i, out, answer), c)
  {
  }

  lemma CursorFollowsWrites(s: State, e: Event, c: nat)
    requires c < |s.mail.connections|
    ensures CursorFollows(s, e, c)
  {
    if Outside(e) {
      OthersKeepCursors(s, e, c);
    } else {
      WorkFollowsWrites(s, e, c);
    }
  }

  lemma OthersKeepCursors(s: State, e: Event, c: nat)
    requires c < |s.mail.connections|
    requires Outside(e)
    ensures CursorFollows(s, e, c)
  {
  }

  lemma WorkFollowsWrites(s: State, e: Event, c: nat)
    requires c < |s.mail.connections|
    requires !Outside(e)
    ensures CursorFollows(s, e, c)
  {
    hide StepSync, StepIngest;
    match e
    case RunSync(i, out, answer) => SyncWritesCursor(s, i, out, answer, c);
    case RunIngest(i, out) => IngestKeepsCursors(s, i, out);
    case IngestDies(i) => IngestKeepsCursors(s, i, Succeeds);
    case RunTask(i, out) => if i < |s.tasks| { WorkerShape(s, i, out); }
    case RunRetry(i, out) => if i < |s.retries| { RetryShape(s, i, out); }
    case RetryDies(i) => if i < |s.retries| { RetryCrashShape(s, i); }
    case RunDeletion(_, _) => DeletionShape(s, e);
    case DeletionDies(_) => DeletionShape(s, e);
    case _ =>
  }

  /** The cursor moves back at an event exactly when a sync then writes a push smaller than it, and it is
      never lost. */
  lemma {:induction false} CursorDropsIff(s: State, e: Event, c: nat)
    requires c < |s.mail.connections| && s.mail.connections[c].cursor.Some?
    ensures c < |Next(s, e).mail.connections| && Next(s, e).mail.connections[c].cursor.Some?
    ensures Next(s, e).mail.connections[c].cursor.value < s.mail.connections[c].cursor.value
      <==> WritesCursor(s, e, c) && s.syncs[e.i].push < s.mail.connections[c].cursor.value
  {
    hide Next;
    CursorFollowsWrites(s, e, c);
  }

  /** In every reachable state, over any interleaving of syncs, crashes, retries and pushes in any
      order, each message between the connection's largest seed and its cursor that carries an
      acceptable attachment has had a receipt committed for the connection's user. */
  lemma {:induction false} CursorNeverPassesAReceipt(events: seq<Event>, c: nat, entry: LogEntry)
    requires
      var s := Run(INITIAL, events);
      && c < |s.mail.connections| && entry in s.mail.log && s.mail.connections[c].cursor.Some?
      && s.mail.connections[c].seed < entry.history <= s.mail.connections[c].cursor.value
    ensures
      var s := Run(INITIAL, events);
      && entry.message in s.mail.contents
      && (CarriesReceipt(s.mail.contents[entry.message]) ==>
            EverReceived(events, s.mail.connections[c].owner, entry.message))
  {
    var s := Run(INITIAL, events);
    RunKeepsInv(events);
    assert ConnectionOk(s, c);
    if CarriesReceipt(s.mail.contents[entry.message]) {
      DeliveredWasReal(events, s.mail.connections[c].owner, entry.message);
    }
  }
}
