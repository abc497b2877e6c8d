/** What every state of the services inherits from the theorems about all runs, and runs that show
    where a guarantee ends. */
module Guarantees {
  import opened Domain
  import opened Mail
  import opened Machine
  import opened Serial
  import opened Backend
  import opened Payload
  import Calendar
  import ReceiptParser
  import StorageSafety
  import PipelineSafety
  import Coverage
  import History

  /** However the service calls were mixed and whatever failed in them: one receipt a message, one
      expense a receipt, expenses of their receipt's owner made from a parsed payload, a blob behind
      every row whose commit was acknowledged, and an error exactly where a client expects one. */
  lemma {:induction false} EveryServedStateIsSafe(service: Service)
    requires service.Valid()
    ensures
      var rows, expenses := service.db.rows, service.db.expenses;
      && (forall a <- rows, b <- rows ::
            rows[a].owner == rows[b].owner && rows[a].external.Some? && rows[a].external == rows[b].external ==> a == b)
      && (forall a <- expenses, b <- expenses ::
            expenses[a].receipt.Some? && expenses[a].receipt == expenses[b].receipt ==> a == b)
      && (forall e <- expenses | expenses[e].receipt.Some? ::
            && expenses[e].receipt.value in rows && rows[expenses[e].receipt.value].owner == expenses[e].owner
            && expenses[e].receipt.value in service.details && service.details[expenses[e].receipt.value].payload.Some?)
      && (forall id <- rows :: rows[id].key in service.bucket.blobs
            || History.Happened(service.trace, History.Unacknowledged(rows[id].key)))
      && (forall id <- rows :: id in service.details && RowOk(rows[id].status, service.details[id]))
  {
    var rows, expenses := service.db.rows, service.db.expenses;
    forall a, b | a in rows && b in rows && rows[a].owner == rows[b].owner
      && rows[a].external.Some? && rows[a].external == rows[b].external ensures a == b {
      StorageSafety.OneReceiptPerMessage(service.trace, a, b);
    }
    forall a, b | a in expenses && b in expenses && expenses[a].receipt.Some?
      && expenses[a].receipt == expenses[b].receipt
      ensures a == b {
      PipelineSafety.AtMostOneExpense(service.trace, a, b);
    }
    forall e | e in expenses && expenses[e].receipt.Some?
      ensures expenses[e].receipt.value in rows && rows[expenses[e].receipt.value].owner == expenses[e].owner {
      PipelineSafety.ExpenseBelongsToReceiptOwner(service.trace, e);
      assert PaidFor(service.db, service.details, e);
    }
    forall id | id in rows ensures rows[id].key in service.bucket.blobs
        || History.Happened(service.trace, History.Unacknowledged(rows[id].key)) {
      StorageSafety.RowDanglesIffWiped(service.trace, id);
    }
  }

  /** The cursor a service holds never passed a message that carries a receipt: one was committed. */
  lemma {:induction false} ServedCursorIsHonest(service: Service, c: nat, entry: LogEntry)
    requires service.Valid()
    requires
      && c < |service.mail.connections| && entry in service.mail.log
      && service.mail.connections[c].cursor.Some?
      && service.mail.connections[c].seed < entry.history <= service.mail.connections[c].cursor.value
    ensures entry.message in service.mail.contents
    ensures CarriesReceipt(service.mail.contents[entry.message]) ==>
      History.EverReceived(service.trace, service.mail.connections[c].owner, entry.message)
  {
    Coverage.CursorNeverPassesAReceipt(service.trace, c, entry);
  }

  // ----- where guarantees end -----------------------------------------------

  /** Five events, one after the other. */
  lemma Replay5(s: State, e: seq<Event>)
    requires |e| == 5
    ensures Run(s, e) == Next(Next(Next(Next(Next(s, e[0]), e[1]), e[2]), e[3]), e[4])
  {
    hide Next;
    assert e[..5] == e && e[..4][..3] == e[..3] && e[..3][..2] == e[..2] && e[..2][..1] == e[..1] && e[..1][..0] == [];
    assert Run(s, e[..1]) == Next(s, e[0]);
    assert Run(s, e[..2]) == Next(Run(s, e[..1]), e[1]);
    assert Run(s, e[..3]) == Next(Run(s, e[..2]), e[2]);
    assert Run(s, e[..4]) == Next(Run(s, e[..3]), e[3]);
  }

  lemma Replay3(s: State, e: seq<Event>)
    requires |e| == 3
    ensures Run(s, e) == Next(Next(Next(s, e[0]), e[1]), e[2])
  {
    hide Next;
    assert e[..3] == e && e[..2][..1] == e[..1] && e[..1][..0] == [];
    assert Run(s, e[..1]) == Next(s, e[0]);
    assert Run(s, e[..2]) == Next(Run(s, e[..1]), e[1]);
  }

  lemma SeededAtNine() returns (before: seq<Event>)
    ensures
      var s := Run(INITIAL, before);
      && s.mail.connections == [Connection(7, Some(9), 9)] && s.mail.head == 9 && |s.syncs| == 1
  {
    var step := RunSync(0, Succeeds, TooOld);
    before := [HeadMoves(9), Event.Connect(7), PushArrives(0, 9), step, step];
    var s2 := Next(Next(INITIAL, before[0]), before[1]);
    assert s2.mail.connections == [Connection(7, None, 0)];
    var s4 := Next(Next(s2, before[2]), before[3]);
    assert s4.syncs == [Sync(0, 9, 0, SyncStage.Opened(None))];
    var s5 := Next(s4, step);
    assert s5.mail.connections == [Connection(7, Some(9), 9)];
    Replay5(INITIAL, before);
  }

  lemma LatePush(s: State) returns (after: seq<Event>)
    requires s.mail.connections == [Connection(7, Some(9), 9)] && s.mail.head == 9 && |s.syncs| == 1
    ensures |Run(s, after).mail.connections| == 1 && Run(s, after).mail.connections[0].cursor == Some(4)
  {
    var step := RunSync(1, Succeeds, TooOld);
    after := [PushArrives(0, 4), step, step, step, step];
    var t2 := Next(Next(s, after[0]), step);
    assert t2.syncs[1].stage == SyncStage.Opened(Some(9));
    var t4 := Next(Next(t2, step), step);
    assert t4.syncs[1].stage == Walking(9, [], 0, true);
    var t5 := Next(t4, step);
    assert t5.mail.connections == [Connection(7, Some(4), 9)];
    Replay5(s, after);
  }

  /** The cursor is not monotone: a push that arrives late moves it back. */
  lemma {:induction false} LatePushMovesCursorBack() returns (before: seq<Event>, after: seq<Event>)
    ensures
      var s, s' := Run(INITIAL, before), Run(INITIAL, before + after);
      && |s.mail.connections| == 1 && s.mail.connections[0].cursor == Some(9)
      && |s'.mail.connections| == 1 && s'.mail.connections[0].cursor == Some(4)
  {
    before := SeededAtNine();
    after := LatePush(Run(INITIAL, before));
    RunConcat(INITIAL, before, after);
  }

  lemma OneUpload() returns (before: seq<Event>)
    ensures
      var s := Run(INITIAL, before);
      && s.db.rows == map[0 := Row(7, 0, None, Uploaded)] && s.tasks == [Task(Process, 0, 0, Queued)]
      && |s.ingests| == 1 && s.ingests[0].stage == Finished(false)
  {
    var photo, step := Attachment("", true, 1, true), RunIngest(0, Succeeds);
    before := [BeginUpload(7, photo), step, step, step, step];
    var s1 := Next(INITIAL, before[0]);
    assert s1.ingests == [Ingest(7, None, [photo], 0, Looping)];
    var s2 := Next(s1, step);
    assert s2.ingests == [Ingest(7, None, [photo], 0, IngestStage.Stored(0))];
    var s3 := Next(s2, step);
    assert s3.ingests == [Ingest(7, None, [photo], 0, Persisted(0))];
    assert s3.db.rows == map[0 := Row(7, 0, None, Uploaded)];
    var s4 := Next(s3, step);
    assert s4.ingests == [Ingest(7, None, [photo], 1, Looping)];
    var s5 := Next(s4, step);
    Replay5(INITIAL, before);
  }

  lemma Processed(s: State) returns (work: seq<Event>)
    requires s.db.rows == map[0 := Row(7, 0, None, Uploaded)] && s.tasks == [Task(Process, 0, 0, Queued)]
    ensures
      var t := Run(s, work);
      && t.db.rows == map[0 := Row(7, 0, None, Parsed)] && t.db.expenses == s.db.expenses
      && t.tasks == [Task(Process, 0, 0, Done), Task(Categorise, 0, 0, Queued)] && t.ingests == s.ingests
  {
    var step := RunTask(0, Succeeds);
    work := [step, step, step, step, step];
    var t1 := Next(s, step);
    var t2 := Next(t1, step);
    var t3 := Next(t2, step);
    var t4 := Next(t3, step);
    TaskEvent(s, 0, Succeeds);
    TaskEvent(t1, 0, Succeeds);
    TaskEvent(t2, 0, Succeeds);
    TaskEvent(t3, 0, Succeeds);
    TaskEvent(t4, 0, Succeeds);
    hide Next, Run;
    assert t1.tasks == [Task(Process, 0, 0, Loaded(Uploaded))];
    assert t2.tasks == [Task(Process, 0, 0, Marked)];
    assert t3.tasks == [Task(Process, 0, 0, Committing)];
    assert t4.tasks == [Task(Process, 0, 0, Handoff)];
    Replay5(s, work);
  }

  /** Every attempt fails at its first query. */
  lemma CategoriseFailsFourTimes(s: State) returns (tries: seq<Event>)
    requires s.tasks == [Task(Process, 0, 0, Done), Task(Categorise, 0, 0, Queued)]
    ensures
      var t := Run(s, tries);
      && t.db == s.db && t.ingests == s.ingests
      && t.tasks == [Task(Process, 0, 0, Done), Task(Categorise, 0, 3, Exhausted(false))]
  {
    var fail := RunTask(1, Fails);
    tries := [fail, fail, fail, fail, fail];
    var t1 := Next(s, fail);
    var t2 := Next(t1, fail);
    var t3 := Next(t2, fail);
    var t4 := Next(t3, fail);
    TaskEvent(s, 1, Fails);
    TaskEvent(t1, 1, Fails);
    TaskEvent(t2, 1, Fails);
    TaskEvent(t3, 1, Fails);
    TaskEvent(t4, 1, Fails);
    hide Next, Run;
    assert t1.tasks == [Task(Process, 0, 0, Done), Task(Categorise, 0, 1, Queued)];
    assert t2.tasks == [Task(Process, 0, 0, Done), Task(Categorise, 0, 2, Queued)];
    assert t3.tasks == [Task(Process, 0, 0, Done), Task(Categorise, 0, 3, Queued)];
    assert t4.tasks == [Task(Process, 0, 0, Done), Task(Categorise, 0, 3, Exhausted(false))];
    Replay5(s, tries);
  }

  /** A receipt can be left parsed for good: its categorising was given up, every task of it is over, and
      nothing marked it failed. */
  lemma {:induction false} ExhaustedCategorisingLeavesParsed()
    returns (upload: seq<Event>, work: seq<Event>, tries: seq<Event>)
    ensures
      var s := Run(INITIAL, upload + work + tries);
      && s.db.rows == map[0 := Row(7, 0, None, Parsed)]
      && s.tasks == [Task(Process, 0, 0, Done), Task(Categorise, 0, 3, Exhausted(false))]
      && |s.ingests| == 1 && s.ingests[0].stage == Finished(false)
  {
    hide Next, Run;
    upload := OneUpload();
    work := Processed(Run(INITIAL, upload));
    RunConcat(INITIAL, upload, work);
    tries := CategoriseFailsFourTimes(Run(INITIAL, upload + work));
    RunConcat(INITIAL, upload + work, tries);
  }

  const BLANK_SCAN: OcrInputs := OcrInputs(true, false, true, true, "", 90, 50, false, None, None)

  lemma BlankScanReads(r: OcrResult)
    requires OcrSays(BLANK_SCAN, r)
    ensures r.Extracted? && r.payload == StoredPayload(None, None, None)
  {
    assert ReceiptParser.Lines("") == [];
    assert ReceiptParser.ByKeyword([], ReceiptParser.TOTAL_KEYWORDS) == None by {
      ReceiptParser.NoKeyword([], ReceiptParser.TOTAL_KEYWORDS);
    }
  }

  ghost predicate Queues(service: Service, i: nat, kind: TaskKind)
    reads service
  {
    i < |service.queue| && service.queue[i].kind == kind && service.queue[i].receipt == 0
  }

  /** One receipt, and it has this status. */
  ghost predicate OnlyRowIs(service: Service, status: Status)
    reads service
  {
    service.db.rows.Keys == {0} && service.db.rows[0].status == status
  }

  method UploadOne() returns (service: Service)
    ensures fresh(service) && service.Valid() && OnlyRowIs(service, Uploaded) && service.db.expenses == map[]
    ensures Queues(service, 0, Process) && service.queue[0].stage == Queued && |service.queue| == 1
  {
    hide FieldsOk, Run, Next;
    service := new Service();
    var created := service.UploadReceipt(7, Attachment("", true, 1, true), NO_FAULT);
  }

  method ScanOne() returns (service: Service)
    ensures fresh(service) && service.Valid() && OnlyRowIs(service, Parsed) && service.db.expenses == map[]
    ensures 0 in service.details && service.details[0].payload == Some(StoredPayload(None, None, None))
    ensures Queues(service, 0, Process)
    ensures Queues(service, 1, Categorise) && service.queue[1].stage == Queued && |service.queue| == 2
  {
    hide FieldsOk, Run, Next, OcrSays;
    service := UploadOne();
    var raised, reading := service.ProcessReceipt(0, ALL_WELL, BLANK_SCAN);
    BlankScanReads(reading.value);
  }

  method SpendOne() returns (service: Service)
    ensures fresh(service) && service.Valid() && OnlyRowIs(service, Categorised) && HasExpense(service.db, 0)
    ensures Queues(service, 0, Process) && Queues(service, 1, Categorise) && |service.queue| == 2
  {
    hide FieldsOk, Run, Next;
    service := ScanOne();
    var raised := service.CategoriseReceipt(
      1, CATEGORISE_WELL, Calendar.Date(2024, 1, 1), map[], _ => None, false, None);
    assert service.db.expenses[service.db.nextExpense - 1].receipt == Some(0);
  }

  /** A receipt can end categorised with an error message: it gets its expense, its processing task is
      delivered again and fails, and its categorising task is delivered again and sets the status right. */
  method CategorisedWithAnError() returns (service: Service)
    ensures service.Valid() && OnlyRowIs(service, Categorised)
    ensures 0 in service.details && service.details[0].error.Some?
  {
    hide FieldsOk, Run, Next, CoercePayload, FitsColumns;
    service := SpendOne();
    service.Redeliver(0);
    var raised, reading := service.ProcessReceipt(2, ALL_WELL, BLANK_SCAN.(downloaded := false));
    assert OnlyRowIs(service, Status.Failed);
    service.Redeliver(1);
    raised := service.CategoriseReceipt(
      3, CATEGORISE_WELL, Calendar.Date(2024, 1, 1), map[], _ => None, false, None);
  }

  lemma KillEvent(s: State)
    requires |s.tasks| == 1 && !Over(s.tasks[0].stage)
    ensures Next(s, TaskKilled(0)) == s.(tasks := [s.tasks[0].(stage := Lost)])
  {
    assert s.tasks[0 := s.tasks[0].(stage := Lost)] == [s.tasks[0].(stage := Lost)];
  }

  lemma WorkerKilled(s: State) returns (after: seq<Event>)
    requires s.db.rows == map[0 := Row(7, 0, None, Uploaded)] && s.tasks == [Task(Process, 0, 0, Queued)]
    ensures
      var t := Run(s, after);
      && 0 in t.db.rows && t.db.rows[0].status == Processing && t.tasks == [Task(Process, 0, 0, Lost)]
      && t.ingests == s.ingests
  {
    var work, kill := RunTask(0, Succeeds), TaskKilled(0);
    after := [work, work, kill];
    var t1 := Next(s, work);
    var t2 := Next(t1, work);
    TaskEvent(s, 0, Succeeds);
    TaskEvent(t1, 0, Succeeds);
    KillEvent(t2);
    hide Next, Run;
    assert t1.tasks == [Task(Process, 0, 0, Loaded(Uploaded))];
    assert t2.tasks == [Task(Process, 0, 0, Marked)];
    Replay3(s, after);
  }

  /** A receipt can be left processing for good: its upload is finished, its worker was killed, and
      the broker had acknowledged the task. */
  lemma {:induction false} KilledWorkerLeavesProcessing() returns (before: seq<Event>, after: seq<Event>)
    ensures
      var s := Run(INITIAL, before + after);
      && 0 in s.db.rows && s.db.rows[0].status == Processing
      && |s.tasks| == 1 && s.tasks[0].stage == Lost && |s.ingests| == 1 && s.ingests[0].stage == Finished(false)
  {
    before := OneUpload();
    after := WorkerKilled(Run(INITIAL, before));
    RunConcat(INITIAL, before, after);
  }
}
