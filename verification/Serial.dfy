/** The columns and calls of the services as they run one call at a time: what a client may rely on,
    how the fallible statements of a call end, and what the interleaved machine does at each. */
module Serial {
  import opened Domain
  import opened Mail
  import opened Machine
  import opened Payload
  import Calendar

  datatype OcrMethod = Tesseract | Gpt4v

  // The columns of a receipt that the worker fills in.
  datatype Details = Details(error: Option<string>, payload: Option<StoredPayload>, ocrMethod: Option<OcrMethod>)

  // What an expense made from a receipt says.
  datatype Spending = Spending(merchant: string, amount: nat, date: Calendar.Date, category: Category)

  const FRESH: Details := Details(None, None, None)

  const ERROR_MESSAGE_MAX_LEN: nat := 500

  /** What a polling client may rely on in each status. */
  predicate RowOk(status: Status, d: Details) {
    match status
    case Uploaded => d.error.None?
    case Processing => true
    case Parsed => d.error.None? && d.payload.Some? && d.ocrMethod.Some?
    case Categorised => d.payload.Some?
    case Failed => d.error.Some? && |d.error.value| <= ERROR_MESSAGE_MAX_LEN
  }

  ghost predicate FieldsOk(db: Database, bucket: Bucket, details: map<ReceiptId, Details>) {
    && details.Keys == db.rows.Keys
    && (forall id <- db.rows :: id < db.nextRow)
    && (forall key <- bucket.blobs :: key < bucket.nextKey)
    && (forall id <- db.rows :: RowOk(db.rows[id].status, details[id]))
    && (forall e <- db.expenses :: PaidFor(db, details, e))
  }

  /** An expense made from a receipt comes from a parsed one. */
  ghost predicate PaidFor(db: Database, details: map<ReceiptId, Details>, e: ExpenseId)
    requires e in db.expenses
  {
    && e < db.nextExpense
    && (db.expenses[e].receipt.Some? ==>
          db.expenses[e].receipt.value in details && details[db.expenses[e].receipt.value].payload.Some?)
  }

  // ----- calls --------------------------------------------------------------

  datatype CreateFate = CreateFate(put: Outcome, commit: Outcome, cleanup: Outcome, enqueue: Outcome)

  const NO_FAULT: CreateFate := CreateFate(Succeeds, Succeeds, Succeeds, Succeeds)

  datatype CreateResult = Created(id: ReceiptId) | TooLarge | Unsupported | CreateFailed

  datatype PartResult = PartSkipped | PartStored(id: ReceiptId) | PartFailed

  datatype EmailResult = Deduped(ids: set<ReceiptId>) | Ingested(created: seq<ReceiptId>) | EmailFailed

  datatype DeleteResult = Deleted | DeleteNotFound | DeleteFailed

  datatype RetryResult = Retried | RetryNotFound | NotRetryable | RetryFailed

  /** Of the machine's in-flight work only one ingest moved. */
  predicate OnlyIngest(before: State, after: State, i: nat) {
    && |after.ingests| == |before.ingests| && i < |after.ingests|
    && (forall j | 0 <= j < |after.ingests| && j != i :: after.ingests[j] == before.ingests[j])
    && after.syncs == before.syncs && after.mail == before.mail
  }

  /** Rows may be added, all of one owner and message; none is changed or lost, and no expense moves. */
  predicate OnlyAdds(before: Database, after: Database, owner: UserId, external: Option<MessageId>) {
    && after.expenses == before.expenses
    && (forall id <- before.rows :: id in after.rows && after.rows[id] == before.rows[id])
    && (forall id <- after.rows ::
          id in before.rows || (after.rows[id].owner == owner && after.rows[id].external == external))
  }

  /** Rows may be added; none is changed or lost, and no expense moves. */
  predicate RowsKept(before: Database, after: Database) {
    && after.expenses == before.expenses
    && (forall id <- before.rows :: id in after.rows && after.rows[id] == before.rows[id])
  }

  /** Only the status of one row, and what goes with it, may have changed. */
  predicate OnlyStatusOf(
    id: ReceiptId, before: Database, details0: map<ReceiptId, Details>, after: Database, details1: map<ReceiptId,
      Details>) {
    && (after == before || (id in before.rows && exists status :: after == WithStatus(before, id, status)))
    && details1.Keys == details0.Keys
    && forall other <- details0 | other != id :: details1[other] == details0[other]
  }

  function MatchingRows(db: Database, owner: UserId, message: MessageId): set<ReceiptId> {
    set id <- db.rows | db.rows[id].owner == owner && db.rows[id].external == Some(message)
  }

  lemma MatchingIffHasMessage(s: State, owner: UserId, message: MessageId)
    ensures MatchingRows(s.db, owner, message) != {} <==> HasMessage(s, owner, Some(message))
  {
    if HasMessage(s, owner, Some(message)) {
      var id :| id in s.db.rows && s.db.rows[id].owner == owner && s.db.rows[id].external == Some(message);
      assert id in MatchingRows(s.db, owner, message);
    }
  }

  /** The partial unique index, as a query. */
  predicate Clashes(db: Database, owner: UserId, external: Option<MessageId>) {
    external.Some? && MatchingRows(db, owner, external.value) != {}
  }

  lemma ClashIffViolates(s: State, owner: UserId, external: Option<MessageId>)
    ensures Clashes(s.db, owner, external) <==> ViolatesMessageIndex(s, owner, external)
  {
    if external.Some? { MatchingIffHasMessage(s, owner, external.value); }
  }

  function AddRow(db: Database, row: Row): Database {
    db.(rows := db.rows[db.nextRow := row], nextRow := db.nextRow + 1)
  }

  /** What the machine does at the commit of a new row. */
  lemma PutEvent(s: State, i: nat, out: Outcome)
    requires i < |s.ingests| && s.ingests[i].stage == Looping && s.ingests[i].pos < |s.ingests[i].parts|
    requires Screen(s.ingests[i].external.Some?, s.ingests[i].parts[s.ingests[i].pos]).Accept?
    ensures
      var s', key := Next(s, RunIngest(i, out)), s.bucket.nextKey;
      && OnlyIngest(s, s', i) && s'.db == s.db && s'.tasks == s.tasks
      && s'.bucket == Bucket(if Applied(out) then s.bucket.blobs + {key} else s.bucket.blobs, key + 1)
      && s'.ingests[i] == s.ingests[i].(stage := if out == Succeeds then IngestStage.Stored(key) else Raised)
  {
  }

  lemma CommitEvent(s: State, i: nat, key: BlobKey, out: Outcome)
    requires i < |s.ingests| && s.ingests[i].stage == IngestStage.Stored(key)
    ensures
      var s', g := Next(s, RunIngest(i, out)), s.ingests[i];
      var refused := !Applied(out) || ViolatesMessageIndex(s, g.owner, g.external);
      && OnlyIngest(s, s', i) && s'.bucket == s.bucket && s'.tasks == s.tasks
      && s'.db == (if refused then s.db else AddRow(s.db, Row(g.owner, key, g.external, Uploaded)))
      && s'.ingests[i] == g.(stage := if refused || out != Succeeds then RollingBack(key) else Persisted(s.db.nextRow))
  {
  }

  lemma AddRowOnlyAdds(db: Database, row: Row)
    requires db.nextRow !in db.rows
    ensures OnlyAdds(db, AddRow(db, row), row.owner, row.external)
  {
  }

  lemma AddsNothing(db: Database, owner: UserId, external: Option<MessageId>)
    ensures OnlyAdds(db, db, owner, external)
  {
  }

  lemma OnlyAddsTwice(a: Database, b: Database, c: Database, owner: UserId, external: Option<MessageId>)
    requires OnlyAdds(a, b, owner, external) && OnlyAdds(b, c, owner, external)
    ensures OnlyAdds(a, c, owner, external)
  {
  }

  lemma AddingKeepsRows(a: Database, b: Database, c: Database, owner: UserId, external: Option<MessageId>)
    requires RowsKept(a, b) && OnlyAdds(b, c, owner, external)
    ensures RowsKept(a, c)
  {
  }

  lemma RowsKeptTwice(a: Database, b: Database, c: Database)
    requires RowsKept(a, b) && RowsKept(b, c)
    ensures RowsKept(a, c)
  {
  }

  lemma KeepsItsRows(db: Database)
    ensures RowsKept(db, db)
  {
  }

  lemma StatusUntouched(id: ReceiptId, db: Database, details: map<ReceiptId, Details>)
    ensures OnlyStatusOf(id, db, details, db, details)
  {
  }

  lemma StatusWritten(id: ReceiptId, db: Database, details: map<ReceiptId, Details>, status: Status, d: Details)
    requires id in db.rows && id in details
    ensures OnlyStatusOf(id, db, details, WithStatus(db, id, status), details[id := d])
  {
  }

  lemma OnlyStatusTwice(
    id: ReceiptId, db0: Database, details0: map<ReceiptId, Details>, db1: Database, details1: map<ReceiptId, Details>,
    db2: Database, details2: map<ReceiptId, Details>)
    requires OnlyStatusOf(id, db0, details0, db1, details1) && OnlyStatusOf(id, db1, details1, db2, details2)
    ensures OnlyStatusOf(id, db0, details0, db2, details2)
  {
    if db1 != db0 && db2 != db1 {
      var first :| db1 == WithStatus(db0, id, first);
      var second :| db2 == WithStatus(db1, id, second);
      SecondStatusWins(db0, id);
      assert db2 == WithStatus(db0, id, second);
    }
  }

  lemma StoredMessageIsFound(s: State, owner: UserId, message: MessageId, id: ReceiptId)
    requires id in s.db.rows && s.db.rows[id].owner == owner && s.db.rows[id].external == Some(message)
    ensures HasMessage(s, owner, Some(message))
  {
  }

  lemma SameRowsSameMessages(a: State, b: State, owner: UserId, message: MessageId)
    requires a.db == b.db
    ensures HasMessage(a, owner, Some(message)) == HasMessage(b, owner, Some(message))
  {
  }

  lemma NextKeyIsFree(db: Database, bucket: Bucket, details: map<ReceiptId, Details>)
    requires FieldsOk(db, bucket, details)
    ensures bucket.blobs + {bucket.nextKey} - {bucket.nextKey} == bucket.blobs
  {
  }

  lemma PutIsOk(db: Database, bucket: Bucket, details: map<ReceiptId, Details>, out: Outcome)
    requires FieldsOk(db, bucket, details)
    ensures
      var key := bucket.nextKey;
      FieldsOk(db, Bucket(if Applied(out) then bucket.blobs + {key} else bucket.blobs, key + 1), details)
  {
  }

  lemma NewRowIsOk(db: Database, bucket: Bucket, details: map<ReceiptId, Details>, row: Row)
    requires FieldsOk(db, bucket, details) && row.status == Uploaded
    ensures FieldsOk(AddRow(db, row), bucket, details[db.nextRow := FRESH])
  {
    var db', details' := AddRow(db, row), details[db.nextRow := FRESH];
    forall e | e in db'.expenses ensures PaidFor(db', details', e) {
      assert PaidFor(db, details, e);
    }
  }

  // ----- deleting and retrying ----------------------------------------------

  /** The row is gone; its expenses stay, without their receipt. */
  function WithoutRow(db: Database, id: ReceiptId): (r: Database)
    ensures r.expenses.Keys == db.expenses.Keys
  {
    db.(rows := db.rows - {id},
        expenses := map e <- db.expenses ::
          if db.expenses[e].receipt == Some(id) then db.expenses[e].(receipt := None) else db.expenses[e])
  }

  lemma WithoutRowIsOk(db: Database, bucket: Bucket, details: map<ReceiptId, Details>, id: ReceiptId)
    requires FieldsOk(db, bucket, details)
    ensures FieldsOk(WithoutRow(db, id), bucket, details - {id})
  {
    var db', details' := WithoutRow(db, id), details - {id};
    forall e | e in db'.expenses ensures PaidFor(db', details', e) {
      assert PaidFor(db, details, e);
    }
  }

  lemma FewerBlobsAreOk(db: Database, bucket: Bucket, details: map<ReceiptId, Details>, key: BlobKey)
    requires FieldsOk(db, bucket, details)
    ensures FieldsOk(db, RemoveBlob(bucket, key), details)
  {
  }

  /** A status and what goes with it are written together. */
  lemma StatusWriteIsOk(
    db: Database, bucket: Bucket, details: map<ReceiptId, Details>, id: ReceiptId, status: Status, d: Details)
    requires FieldsOk(db, bucket, details) && id in db.rows && RowOk(status, d)
    requires details[id].payload.Some? ==> d.payload.Some?
    ensures FieldsOk(WithStatus(db, id, status), bucket, details[id := d])
  {
    var db', details' := WithStatus(db, id, status), details[id := d];
    forall e | e in db'.expenses ensures PaidFor(db', details', e) {
      assert PaidFor(db, details, e);
    }
  }

  function WithStatus(db: Database, id: ReceiptId, status: Status): (r: Database)
    requires id in db.rows
    ensures r.rows.Keys == db.rows.Keys && r.expenses == db.expenses
    ensures r.rows == db.rows[id := db.rows[id].(status := status)]
  {
    db.(rows := db.rows[id := db.rows[id].(status := status)])
  }

  /** Nothing but the tables, blobs, tasks and one kind of call moved. */
  predicate MailUntouched(before: State, after: State) {
    after.ingests == before.ingests && after.syncs == before.syncs && after.mail == before.mail
  }

  lemma DeletionEvent(s: State, d: nat, out: Outcome)
    requires d < |s.deletions|
    ensures
      var s', call := Next(s, RunDeletion(d, out)), s.deletions[d];
      && MailUntouched(s, s') && s'.tasks == s.tasks && |s'.deletions| == |s.deletions|
      && match call.stage
         case Finding =>
           && s'.db == s.db && s'.bucket == s.bucket
           && s'.deletions[d] == call.(stage :=
                if out == Succeeds && call.receipt in s.db.rows && s.db.rows[call.receipt].owner == call.owner
                then Found(s.db.rows[call.receipt].key) else DeletionOver)
         case Found(key) =>
           && s'.db == (if Applied(out) then WithoutRow(s.db, call.receipt) else s.db) && s'.bucket == s.bucket
           && s'.deletions[d] == call.(stage := if out == Succeeds then Wiping(key) else DeletionOver)
         case Wiping(key) =>
           s'.db == s.db && s'.bucket == if Applied(out) then RemoveBlob(s.bucket, key) else s.bucket
         case DeletionOver => s' == s
  {
  }

  lemma MailEvent(s: State, history: HistoryId, message: MessageId, payload: Part)
    requires history > s.mail.head
    ensures
      var s', m := Next(s, MailArrives(history, message, payload)), s.mail;
      && s'.db == s.db && s'.bucket == s.bucket && s'.tasks == s.tasks
      && s'.mail == m.(
        log := m.log + [LogEntry(history, message)], head := history,
        contents := if message in m.contents then m.contents else m.contents[message := payload])
  {
  }

  lemma BeginDeliveryEvent(s: State, owner: UserId, message: MessageId, parts: seq<Attachment>)
    ensures Next(s, BeginDelivery(owner, message, parts))
      == s.(ingests := s.ingests + [Ingest(owner, Some(message), parts, 0, Checking)])
  {
  }

  lemma BeginDeletionEvent(s: State, owner: UserId, id: ReceiptId)
    ensures Next(s, BeginDeletion(owner, id)) == s.(deletions := s.deletions + [Deletion(owner, id, Finding)])
  {
  }

  lemma BeginRetryEvent(s: State, owner: UserId, id: ReceiptId)
    ensures Next(s, BeginRetry(owner, id)) == s.(retries := s.retries + [Retry(owner, id, Fetching)])
  {
  }

  lemma DetailsExist(db: Database, bucket: Bucket, details: map<ReceiptId, Details>, id: ReceiptId)
    requires FieldsOk(db, bucket, details) && id in db.rows
    ensures id in details && RowOk(db.rows[id].status, details[id])
  {
  }

  lemma RetryEvent(s: State, r: nat, out: Outcome)
    requires r < |s.retries|
    ensures
      var s', call := Next(s, RunRetry(r, out)), s.retries[r];
      && MailUntouched(s, s') && s'.bucket == s.bucket && |s'.retries| == |s.retries|
      && match call.stage
         case Fetching =>
           && s'.db == s.db && s'.tasks == s.tasks
           && s'.retries[r] == call.(stage :=
                if && out == Succeeds && call.receipt in s.db.rows && s.db.rows[call.receipt].owner == call.owner
                   && s.db.rows[call.receipt].status == Status.Failed
                then Resetting else RetryOver)
         case Resetting =>
           && s'.tasks == s.tasks
           && s'.db == (if Applied(out)
             && call.receipt in s.db.rows then WithStatus(s.db, call.receipt, Uploaded) else s.db)
           && s'.retries[r] == call.(stage := if out == Succeeds
             && call.receipt in s.db.rows then Enqueueing else RetryOver)
         case Enqueueing =>
           s'.db == s.db && s'.tasks == s.tasks + if Applied(out) then [Task(Process, call.receipt, 0, Queued)] else []
         case RetryOver => s' == s
  {
  }

  // ----- worker attempts ----------------------------------------------------

  // What the OCR step meets: the download, the decoding of the bytes, Tesseract's reading, and the
  // vision model's answer, asked for only when the reading is poor and a key is configured.
  datatype OcrInputs = OcrInputs(
    downloaded: bool, isPdf: bool, decodes: bool, readable: bool, text: string, confidence: int, threshold: int,
    hasKey: bool, vision: Option<ParsedReceipt>, date: Option<Calendar.Date>)

  predicate Sound(inputs: OcrInputs) {
    && (inputs.vision.Some? ==> Representable(inputs.vision.value))
    && (inputs.date.Some? ==> Calendar.Valid(inputs.date.value))
  }

  datatype OcrResult =
    | Extracted(payload: StoredPayload, ocrMethod: OcrMethod)
    | PipelineError(message: string)
    | Crashed(message: string)

  /** The vision answer replaces Tesseract's exactly when it was asked for and came; bytes that cannot
      be decoded are a domain error, everything else that fails is transient. */
  predicate OcrSays(inputs: OcrInputs, r: OcrResult)
    requires Sound(inputs)
  {
    && (r.Crashed? <==> !inputs.downloaded || (inputs.decodes && !inputs.readable))
    && (r.PipelineError? <==> inputs.downloaded && !inputs.decodes)
    && (r.Extracted? ==>
          && (r.ocrMethod == Gpt4v <==> inputs.confidence < inputs.threshold && inputs.hasKey && inputs.vision.Some?)
          && r.payload == ToJsonable(
               if r.ocrMethod == Gpt4v then inputs.vision.value else ParseReceiptText(inputs.text, inputs.date)))
  }

  /** Where an attempt goes on after the OCR step. */
  function AfterReading(r: OcrResult): TaskStage {
    match r
    case Extracted(_, _) => Committing
    case PipelineError(_) => Marker(false)
    case Crashed(_) => Marker(true)
  }

  /** The first 500 characters. */
  function Truncated(message: string): (m: string)
    ensures m <= message && |m| == if |message| <= 500 then |message| else 500
  {
    if |message| <= ERROR_MESSAGE_MAX_LEN then message else message[..ERROR_MESSAGE_MAX_LEN]
  }

  datatype ProcessFate = ProcessFate(load: Outcome, mark: Outcome, commit: Outcome, handoff: Outcome, marker: Outcome)

  datatype CategoriseFate = CategoriseFate(load: Outcome, find: Outcome, fix: Outcome, commit: Outcome)

  function Affect(db: Database, id: ReceiptId, e: Effect): Database
    requires e.write.Some? ==> id in db.rows
  {
    var written := if e.write.Some? then WithStatus(db, id, e.write.value) else db;
    if e.expenseFor.Some? then AddExpenseRow(written, Expense(e.expenseFor.value, Some(id))) else written
  }

  lemma TaskEvent(s: State, i: nat, out: Outcome)
    requires i < |s.tasks|
    ensures
      var s', e := Next(s, RunTask(i, out)), Decide(s.db, s.tasks[i], out);
      && MailUntouched(s, s') && s'.bucket == s.bucket
      && s'.tasks
         == s.tasks[i := e.next] + (if e.enqueue then [Task(Categorise, s.tasks[i].receipt, 0, Queued)] else [])
      && s'.db == Affect(s.db, s.tasks[i].receipt, e)
  {
    assert s.tasks[i := Decide(s.db, s.tasks[i], out).next] + [] == s.tasks[i := Decide(s.db, s.tasks[i], out).next];
  }

  /** The wrapper's retry, or its last word. */
  function Requeued(t: Task, marked: bool): Task {
    if t.retries < MAX_RETRIES then t.(retries := t.retries + 1, stage := Queued) else t.(stage := Exhausted(marked))
  }

  lemma SameDetails(details: map<ReceiptId, Details>, id: ReceiptId)
    requires id in details
    ensures details[id := details[id]] == details
  {
  }

  lemma SameStatus(db: Database, id: ReceiptId)
    requires id in db.rows
    ensures WithStatus(db, id, db.rows[id].status) == db
  {
    var row := db.rows[id];
    assert row.(status := row.status) == row;
    assert db.rows[id := row] == db.rows;
  }

  lemma SecondStatusWins(db: Database, id: ReceiptId)
    requires id in db.rows
    ensures forall first: Status, second: Status ::
      WithStatus(WithStatus(db, id, first), id, second) == WithStatus(db, id, second)
  {
    forall first: Status, second: Status
      ensures WithStatus(WithStatus(db, id, first), id, second) == WithStatus(db, id, second)
    {
      var once := db.rows[id := db.rows[id].(status := first)];
      assert once[id := once[id].(status := second)] == db.rows[id := db.rows[id].(status := second)];
    }
  }

  const ALL_WELL: ProcessFate := ProcessFate(Succeeds, Succeeds, Succeeds, Succeeds, Succeeds)

  const CATEGORISE_WELL: CategoriseFate := CategoriseFate(Succeeds, Succeeds, Succeeds, Succeeds)

  predicate ProcessClean(fate: ProcessFate) {
    fate == ALL_WELL
  }

  predicate CategoriseClean(fate: CategoriseFate) {
    fate == CATEGORISE_WELL
  }

  /** The expense and the status that goes with it. */
  function WithExpense(db: Database, id: ReceiptId, owner: UserId): (r: Database)
    requires id in db.rows
    ensures r.expenses.Keys == db.expenses.Keys + {db.nextExpense}
  {
    AddExpenseRow(WithStatus(db, id, Status.Categorised), Expense(owner, Some(id)))
  }

  const MERCHANT_WIDTH: nat := 255

  /** The column widths: VARCHAR(255), and twelve digits of which two are cents. */
  predicate FitsColumns(spending: Spending) {
    |spending.merchant| <= MERCHANT_WIDTH && spending.amount < AMOUNT_LIMIT
  }

  lemma ColumnsAre()
    ensures forall s: Spending :: FitsColumns(s) <==> |s.merchant| <= 255 && s.amount < 1_000_000_000_000
  {
  }

  /** What a row's error column says beside each status: a failed row has one, an uploaded or parsed row
      has none, and in the other statuses it is whatever an earlier attempt left. */
  lemma ErrorByStatus(db: Database, bucket: Bucket, details: map<ReceiptId, Details>, id: ReceiptId)
    requires FieldsOk(db, bucket, details) && id in db.rows
    ensures id in details
    ensures details[id].error.Some? <==>
      || db.rows[id].status == Status.Failed
      || (db.rows[id].status in {Status.Processing, Status.Categorised} && details[id].error.Some?)
  {
  }

  lemma InsertEvent(s: State, i: nat, owner: UserId, out: Outcome)
    requires i < |s.tasks| && s.tasks[i].kind == Categorise && s.tasks[i].stage == Ready(owner)
    requires s.tasks[i].receipt in s.db.rows && !HasExpense(s.db, s.tasks[i].receipt)
    ensures
      var s', t := Next(s, RunTask(i, out)), s.tasks[i];
      && MailUntouched(s, s') && s'.bucket == s.bucket
      && s'.tasks == s.tasks[i := if out == Succeeds then t.(stage := Done) else Requeued(t, false)]
      && s'.db == if Applied(out) then WithExpense(s.db, t.receipt, owner) else s.db
  {
    hide Next, Run;
    TaskEvent(s, i, out);
  }

  lemma NewExpenseIsOk(db: Database, bucket: Bucket, details: map<ReceiptId, Details>, owner: UserId, id: ReceiptId)
    requires FieldsOk(db, bucket, details) && id in db.rows && details[id].payload.Some?
    ensures FieldsOk(WithExpense(db, id, owner), bucket, details)
  {
    var db' := WithExpense(db, id, owner);
    forall e | e in db'.expenses ensures PaidFor(db', details, e) {
      if e in db.expenses { assert PaidFor(db, details, e); }
    }
  }

  lemma ExpensePaid(db: Database, bucket: Bucket, details: map<ReceiptId, Details>, id: ReceiptId)
    requires FieldsOk(db, bucket, details) && HasExpense(db, id)
    ensures id in details && details[id].payload.Some?
  {
    var e :| e in db.expenses && db.expenses[e].receipt == Some(id);
    assert PaidFor(db, details, e);
  }

  // ----- mailbox sync -------------------------------------------------------

  // A walk over the history pages: the messages named page by page, and how it ended. `Gone` is the
  // 404 of a start id beyond the provider's retention, `Broken` any other failure.
  datatype WalkEnd = Complete | Gone | Broken
  datatype HistoryWalk = HistoryWalk(pages: seq<seq<MessageId>>, end: WalkEnd)

  datatype SyncFate = SyncFate(
    open: Outcome, seed: Outcome, refresh: Outcome, close: Outcome,
    fetch: nat -> Outcome, query: nat -> Outcome, create: nat -> nat -> CreateFate)

  lemma NothingSeen()
    ensures Distinct([]) == []
  {
  }

  lemma DistinctSnoc(ids: seq<MessageId>, id: MessageId)
    ensures Distinct(ids + [id]) == if id in Distinct(ids) then Distinct(ids) else Distinct(ids) + [id]
  {
    assert (ids + [id])[..|ids|] == ids;
  }

  datatype OpenResult = NotOpened | Seeded | Opened(ids: seq<MessageId>)

  datatype SyncResult = Completed(messagesSeen: nat, receiptsCreated: nat) | SyncFailed

  function MovedCursor(mail: Mailbox, c: nat, push: HistoryId, seeding: bool): (r: Mailbox)
    requires c < |mail.connections|
    ensures r.log == mail.log && r.contents == mail.contents && r.head == mail.head
    ensures |r.connections| == |mail.connections| && r.connections[c].cursor == Some(push)
    ensures r.connections[c].owner == mail.connections[c].owner
    ensures forall d | 0 <= d < |r.connections| && d != c :: r.connections[d] == mail.connections[d]
  {
    var k := mail.connections[c];
    mail.(connections := mail.connections[c := k.(
      cursor := Some(push), seed := if seeding && push > k.seed then push else k.seed)])
  }

  predicate Delivered(db: Database, owner: UserId, message: MessageId) {
    Clashes(db, owner, Some(message))
  }

  /** A listed message is dealt with: it is known, and if it carries a receipt there is a row for it. */
  predicate Settled(db: Database, mail: Mailbox, owner: UserId, message: MessageId) {
    message in mail.contents && (CarriesReceipt(mail.contents[message]) ==> Delivered(db, owner, message))
  }

  /** A listed message gets through: it can be fetched, and has nothing attached, or its delivery finds its
      receipt or completes. */
  predicate MessagePasses(
    db: Database, mail: Mailbox, owner: UserId, message: MessageId,
    fetch: Outcome, query: Outcome, create: nat -> CreateFate)
  {
    && fetch == Succeeds && message in mail.contents
    && var parts := Attachments(mail.contents[message]);
       || parts == []
       || (query == Succeeds && (Delivered(db, owner, message) || GoesThrough(parts, create)))
  }

  /** When a sync completes: a first push only sets the cursor; any other walks the history, gets every
      listed message through, and writes the cursor. */
  predicate SyncCompletes(db: Database, mail: Mailbox, c: nat, fate: SyncFate, walk: HistoryWalk)
    requires c < |mail.connections|
  {
    && fate.open == Succeeds
    && if mail.connections[c].cursor.None? then fate.seed == Succeeds
       else
         && fate.refresh == Succeeds && !walk.end.Broken? && fate.close == Succeeds
         && (walk.end.Complete? ==> AllPass(db, mail, mail.connections[c].owner, Distinct(Concat(walk.pages)), fate))
  }

  predicate AllPass(db: Database, mail: Mailbox, owner: UserId, ids: seq<MessageId>, fate: SyncFate) {
    forall k: nat | k < |ids| ::
      MessagePasses(db, mail, owner, ids[k], fate.fetch(k), fate.query(k), fate.create(k))
  }

  lemma NothingToPass(db: Database, mail: Mailbox, owner: UserId, fate: SyncFate)
    ensures AllPass(db, mail, owner, [], fate)
  {
  }

  ghost predicate FaultFree(fate: SyncFate) {
    && fate.open == Succeeds && fate.seed == Succeeds && fate.refresh == Succeeds && fate.close == Succeeds
    && (forall k :: fate.fetch(k) == Succeeds && fate.query(k) == Succeeds)
    && (forall k, n :: fate.create(k)(n) == NO_FAULT)
  }

  /** No attempt imports this message: it is gone from the mailbox, or it has no receipt yet and its first
      attachment that is not skipped is refused, or good but not alone. */
  predicate CannotImport(db: Database, mail: Mailbox, owner: UserId, message: MessageId) {
    || message !in mail.contents
    || (&& !Delivered(db, owner, message)
        && (FirstIsRefused(Attachments(mail.contents[message]))
            || FirstIsNotAlone(Attachments(mail.contents[message]))))
  }

  /** Without faults a sync fails exactly when it had a cursor to start from and the walk breaks off or
      lists a message that cannot be imported. */
  lemma {:induction false} FaultFreeSyncFailsIff(db: Database, mail: Mailbox, c: nat, fate: SyncFate, walk: HistoryWalk)
    requires c < |mail.connections| && FaultFree(fate)
    ensures !SyncCompletes(db, mail, c, fate, walk) <==>
      && mail.connections[c].cursor.Some?
      && (|| walk.end.Broken?
          || (walk.end.Complete? && exists k | 0 <= k < |Distinct(Concat(walk.pages))| ::
                CannotImport(db, mail, mail.connections[c].owner, Distinct(Concat(walk.pages))[k])))
  {
    hide MessagePasses, CannotImport, Distinct, Concat;
    var owner, ids := mail.connections[c].owner, Distinct(Concat(walk.pages));
    forall k: nat | k < |ids|
      ensures MessagePasses(db, mail, owner, ids[k], fate.fetch(k), fate.query(k), fate.create(k))
        <==> !CannotImport(db, mail, owner, ids[k])
    {
      FaultFreePassesIff(db, mail, owner, ids[k], fate.create(k));
    }
  }

  lemma FaultFreePassesIff(
    db: Database, mail: Mailbox, owner: UserId, message: MessageId, create: nat -> CreateFate)
    requires forall n :: create(n) == NO_FAULT
    ensures MessagePasses(db, mail, owner, message, Succeeds, Succeeds, create)
      <==> !CannotImport(db, mail, owner, message)
  {
    if message in mail.contents {
      var parts := Attachments(mail.contents[message]);
      FaultFreeGoesThroughIff(parts, create);
      if parts == [] { CompletedGoesThrough(parts, create, false, 0); }
    }
  }

  /** A message that no sync will ever import: it has no receipt, and its first attachment that is not skipped
      is refused. */
  predicate Poison(db: Database, mail: Mailbox, owner: UserId, message: MessageId) {
    && message in mail.contents && !Delivered(db, owner, message)
    && FirstIsRefused(Attachments(mail.contents[message]))
  }

  lemma PoisonNeverPasses(
    db: Database, mail: Mailbox, owner: UserId, message: MessageId,
    fetch: Outcome, query: Outcome, create: nat -> CreateFate)
    requires Poison(db, mail, owner, message)
    ensures !MessagePasses(db, mail, owner, message, fetch, query, create)
  {
    var parts := Attachments(mail.contents[message]);
    hide Attachments;
    var k :| 0 <= k < |parts| && AllSkipped(parts, 0, k) && Screen(true, parts[k]).Refuse?;
    FailsAtTheFirst(parts, k, create);
  }

  /** A sync that meets one does not complete, whatever succeeds. */
  lemma PoisonStopsTheSync(db: Database, mail: Mailbox, c: nat, fate: SyncFate, walk: HistoryWalk, k: nat)
    requires c < |mail.connections| && mail.connections[c].cursor.Some? && walk.end.Complete?
    requires k < |Distinct(Concat(walk.pages))|
    requires Poison(db, mail, mail.connections[c].owner, Distinct(Concat(walk.pages))[k])
    ensures !SyncCompletes(db, mail, c, fate, walk)
    ensures !AllPass(db, mail, mail.connections[c].owner, Distinct(Concat(walk.pages)), fate)
  {
    hide Poison, MessagePasses, Distinct, Concat;
    var id := Distinct(Concat(walk.pages))[k];
    PoisonNeverPasses(db, mail, mail.connections[c].owner, id, fate.fetch(k), fate.query(k), fate.create(k));
  }

  /** Importing another message, or trying this one, leaves it as it is. */
  lemma PoisonStays(a: Database, b: Database, mail: Mailbox, owner: UserId, tried: MessageId)
    requires OnlyAdds(a, b, owner, Some(tried))
    requires tried in mail.contents && FirstIsRefused(Attachments(mail.contents[tried])) ==> b == a
    ensures forall m | Poison(a, mail, owner, m) :: Poison(b, mail, owner, m)
  {
    forall m | Poison(a, mail, owner, m) ensures Poison(b, mail, owner, m) {
      if m != tried { OthersAsBefore(a, b, owner, tried, m); }
    }
  }

  lemma GoodFirstIsNotRefused(parts: seq<Attachment>, k: int)
    requires 0 <= k < |parts| && AllSkipped(parts, 0, k) && Acceptable(parts[k])
    ensures !FirstIsRefused(parts)
  {
    forall j | 0 <= j < |parts| && AllSkipped(parts, 0, j) && !Screen(true, parts[j]).Skip? ensures j == k {
      OneFirstCandidate(parts, k, j);
    }
  }

  lemma RefusedIsFirst(parts: seq<Attachment>, pos: int)
    requires 0 <= pos < |parts| && AllSkipped(parts, 0, pos) && !Screen(true, parts[pos]).Skip?
    ensures FirstIsRefused(parts) ==> Screen(true, parts[pos]).Refuse?
  {
    forall j | 0 <= j < |parts| && AllSkipped(parts, 0, j) && !Screen(true, parts[j]).Skip? ensures j == pos {
      OneFirstCandidate(parts, pos, j);
    }
  }

  /** A delivery adds rows of its own message only. */
  lemma OthersAsBefore(a: Database, b: Database, owner: UserId, message: MessageId, other: MessageId)
    requires OnlyAdds(a, b, owner, Some(message)) && other != message
    ensures MatchingRows(b, owner, other) == MatchingRows(a, owner, other)
  {
  }

  lemma SameRowsSamePass(
    a: Database, b: Database, mail: Mailbox, owner: UserId, message: MessageId,
    fetch: Outcome, query: Outcome, create: nat -> CreateFate)
    requires MatchingRows(b, owner, message) == MatchingRows(a, owner, message)
    ensures MessagePasses(b, mail, owner, message, fetch, query, create)
      == MessagePasses(a, mail, owner, message, fetch, query, create)
  {
  }

  lemma AddRowKeepsSettled(db: Database, mail: Mailbox, row: Row, owner: UserId, message: MessageId)
    requires Settled(db, mail, owner, message) && db.nextRow !in db.rows
    ensures Settled(AddRow(db, row), mail, owner, message)
  {
    if Delivered(db, owner, message) {
      var id :| id in MatchingRows(db, owner, message);
      assert id in MatchingRows(AddRow(db, row), owner, message);
    }
  }

  lemma AddRowSettles(db: Database, mail: Mailbox, row: Row, message: MessageId)
    requires message in mail.contents && row.external == Some(message)
    ensures Settled(AddRow(db, row), mail, row.owner, message)
  {
    assert db.nextRow in MatchingRows(AddRow(db, row), row.owner, message);
  }

  lemma SkippedIsSettled(db: Database, mail: Mailbox, owner: UserId, message: MessageId, parts: seq<Attachment>)
    requires message in mail.contents && parts == Attachments(mail.contents[message])
    requires AllSkipped(parts, 0, |parts|)
    ensures Settled(db, mail, owner, message)
  {
    CarriesReceiptIffFetched(mail.contents[message]);
    assert forall i | 0 <= i < |parts| :: !Acceptable(parts[i]);
  }

  lemma NextRowIsNew(db: Database, bucket: Bucket, details: map<ReceiptId, Details>, row: Row)
    requires FieldsOk(db, bucket, details)
    ensures db.nextRow !in db.rows && |AddRow(db, row).rows| == |db.rows| + 1
  {
    assert AddRow(db, row).rows.Keys == db.rows.Keys + {db.nextRow};
    assert |AddRow(db, row).rows| == |AddRow(db, row).rows.Keys|;
  }

  lemma NothingToSkip(parts: seq<Attachment>)
    requires parts == []
    ensures AllSkipped(parts, 0, |parts|)
  {
  }

  lemma DeliveredIsSettled(db: Database, mail: Mailbox, owner: UserId, message: MessageId)
    requires message in mail.contents && MatchingRows(db, owner, message) != {}
    ensures Settled(db, mail, owner, message)
  {
  }

  lemma SameContentsSettled(db: Database, before: Mailbox, after: Mailbox, owner: UserId)
    requires after.contents == before.contents
    ensures forall m :: Settled(db, before, owner, m) == Settled(db, after, owner, m)
  {
  }

  lemma SameLogSameCover(a: State, b: State, from: HistoryId, upto: HistoryId, pages: seq<seq<MessageId>>)
    requires a.mail == b.mail
    ensures CoversHistory(a, from, upto, pages) == CoversHistory(b, from, upto, pages)
  {
  }

  predicate OnlySync(before: State, after: State, y: nat) {
    && after.db == before.db && after.bucket == before.bucket && after.tasks == before.tasks
    && |after.syncs| == |before.syncs| && y < |after.syncs|
    && after.syncs[y].connection == before.syncs[y].connection && after.syncs[y].push == before.syncs[y].push
  }

  /** The statements of a sync on the machine, up to the walk. */
  lemma SyncOpensEvent(s: State, y: nat, out: Outcome, answer: HistoryAnswer)
    requires y < |s.syncs| && s.syncs[y].connection < |s.mail.connections|
    requires s.syncs[y].stage.Pending? || s.syncs[y].stage.Opened?
    ensures
      var s', k := Next(s, RunSync(y, out, answer)), s.syncs[y];
      && OnlySync(s, s', y) && s'.ingests == s.ingests
      && match k.stage
         case Pending =>
           s'.mail == s.mail
           && (out == Succeeds ==> s'.syncs[y].stage == SyncStage.Opened(s.mail.connections[k.connection].cursor))
         case Opened(start) =>
           if start.None? then
             && s'.mail == (if Applied(out) then MovedCursor(s.mail, k.connection, k.push, true) else s.mail)
           else
             s'.mail == s.mail && (out == Succeeds ==> s'.syncs[y].stage == Listing(start.value, s.mail.head))
         case _ => true
  {
  }

  lemma SyncListsEvent(s: State, y: nat, from: HistoryId, upto: HistoryId, walk: HistoryWalk)
    requires y < |s.syncs| && s.syncs[y].stage == Listing(from, upto)
    requires walk.end.Complete? ==> CoversHistory(s, from, upto, walk.pages)
    ensures
      var s' := Next(s, ListEventOf(y, walk));
      && OnlySync(s, s', y) && s'.ingests == s.ingests && s'.mail == s.mail
      && (walk.end.Gone? ==> s'.syncs[y].stage == Walking(from, [], 0, true))
      && (walk.end.Complete? ==> s'.syncs[y].stage == Walking(from, Distinct(Concat(walk.pages)), 0, false))
  {
  }

  function ListEventOf(y: nat, walk: HistoryWalk): Event {
    match walk.end
    case Complete => RunSync(y, Succeeds, Pages(walk.pages))
    case Gone => RunSync(y, Succeeds, TooOld)
    case Broken => RunSync(y, Fails, TooOld)
  }

  lemma SyncFetchesEvent(
    s: State, y: nat, from: HistoryId, todo: seq<MessageId>, pos: nat, reseed: bool, out: Outcome,
      answer: HistoryAnswer)
    requires y < |s.syncs| && s.syncs[y].connection < |s.mail.connections|
    requires s.syncs[y].stage == Walking(from, todo, pos, reseed) && pos < |todo|
    ensures
      var s', k := Next(s, RunSync(y, out, answer)), s.syncs[y];
      && OnlySync(s, s', y) && s'.mail == s.mail
      && (out == Succeeds && todo[pos] in s.mail.contents ==>
            var parts := Attachments(s.mail.contents[todo[pos]]);
            if parts == [] then
              s'.ingests == s.ingests && s'.syncs[y].stage == Walking(from, todo, pos + 1, reseed)
            else
              && s'.syncs[y].stage == Awaiting(from, todo, pos, reseed, |s.ingests|)
              && s'.ingests ==
                   s.ingests + [Ingest(s.mail.connections[k.connection].owner, Some(todo[pos]), parts, 0, Checking)])
  {
  }

  lemma SyncResumesEvent(
    s: State, y: nat, from: HistoryId, todo: seq<MessageId>, pos: nat, reseed: bool, delivery: nat,
      answer: HistoryAnswer)
    requires y < |s.syncs| && delivery < |s.ingests|
    requires s.syncs[y].stage == Awaiting(from, todo, pos, reseed, delivery)
    ensures
      var s' := Next(s, RunSync(y, Succeeds, answer));
      && OnlySync(s, s', y) && s'.mail == s.mail && s'.ingests == s.ingests
      && (s.ingests[delivery].stage.Finished? ==> s'.syncs[y].stage == Walking(from, todo, pos + 1, reseed))
  {
  }

  lemma SyncClosesEvent(
    s: State, y: nat, from: HistoryId, todo: seq<MessageId>, reseed: bool, out: Outcome, answer: HistoryAnswer)
    requires y < |s.syncs| && s.syncs[y].connection < |s.mail.connections|
    requires s.syncs[y].stage == Walking(from, todo, |todo|, reseed)
    ensures
      var s', k := Next(s, RunSync(y, out, answer)), s.syncs[y];
      && OnlySync(s, s', y) && s'.ingests == s.ingests
      && s'.mail == (if Applied(out)
        && from != k.push then MovedCursor(s.mail, k.connection, k.push, reseed) else s.mail)
  {
  }

  /** The order of the checks on an emailed attachment. */
  lemma ScreenByEmail(a: Attachment)
    ensures Screen(true, a) ==
      if !AllowedMime(a.contentType) || !a.decodes then Skip
      else if a.size > MAX_UPLOAD_BYTES then Refuse
      else if a.size == 0 || !a.sniffs then Skip
      else Accept
  {
  }

  predicate AllSkipped(parts: seq<Attachment>, from: int, to: int) {
    forall j | 0 <= from <= j < to <= |parts| :: Screen(true, parts[j]).Skip?
  }

  lemma NoneSkipped(parts: seq<Attachment>, pos: int)
    ensures AllSkipped(parts, pos, pos)
  {
  }

  lemma SkippedOneMore(parts: seq<Attachment>, from: int, pos: int)
    requires 0 <= from <= pos < |parts| && AllSkipped(parts, from, pos) && Screen(true, parts[pos]).Skip?
    ensures AllSkipped(parts, from, pos + 1)
  {
  }

  /** The first attachment that is not skipped is refused. */
  predicate FirstIsRefused(parts: seq<Attachment>) {
    exists k | 0 <= k < |parts| :: AllSkipped(parts, 0, k) && Screen(true, parts[k]).Refuse?
  }

  /** The first attachment that is not skipped is good, but another one follows that is not skipped. */
  predicate FirstIsNotAlone(parts: seq<Attachment>) {
    exists k | 0 <= k < |parts| ::
      AllSkipped(parts, 0, k) && Acceptable(parts[k]) && !AllSkipped(parts, k + 1, |parts|)
  }

  /** Attachment k is good and the only one that is not skipped. */
  predicate OnlyGood(parts: seq<Attachment>, k: int) {
    && 0 <= k < |parts| && Acceptable(parts[k])
    && AllSkipped(parts, 0, k) && AllSkipped(parts, k + 1, |parts|)
  }

  /** Every statement of storing an attachment succeeds. */
  predicate Persists(fate: CreateFate) {
    fate.put == Succeeds && fate.commit == Succeeds && fate.enqueue == Succeeds
  }

  /** A first delivery of these attachments completes: nothing is to be stored, or one attachment is and
      nothing fails. */
  predicate GoesThrough(parts: seq<Attachment>, fate: nat -> CreateFate) {
    AllSkipped(parts, 0, |parts|) || exists k: nat | k < |parts| :: OnlyGood(parts, k) && Persists(fate(k))
  }

  lemma OneFirstCandidate(parts: seq<Attachment>, j: int, k: int)
    requires 0 <= j < |parts| && AllSkipped(parts, 0, j) && !Screen(true, parts[j]).Skip?
    requires 0 <= k < |parts| && AllSkipped(parts, 0, k) && !Screen(true, parts[k]).Skip?
    ensures j == k
  {
  }

  lemma FailsAtTheSecond(parts: seq<Attachment>, first: int, pos: int, fate: nat -> CreateFate)
    requires 0 <= first < pos < |parts| && AllSkipped(parts, 0, first) && Acceptable(parts[first])
    requires !Screen(true, parts[pos]).Skip?
    ensures FirstIsNotAlone(parts) && !GoesThrough(parts, fate)
  {
    forall k | OnlyGood(parts, k) ensures k == first {
      OneFirstCandidate(parts, first, k);
    }
  }

  lemma FailsAtTheFirst(parts: seq<Attachment>, pos: int, fate: nat -> CreateFate)
    requires 0 <= pos < |parts| && AllSkipped(parts, 0, pos) && !Screen(true, parts[pos]).Skip?
    requires Screen(true, parts[pos]).Refuse? || !Persists(fate(pos))
    ensures Screen(true, parts[pos]).Refuse? ==> FirstIsRefused(parts)
    ensures !GoesThrough(parts, fate)
  {
    forall k | OnlyGood(parts, k) ensures k == pos {
      OneFirstCandidate(parts, pos, k);
    }
  }

  lemma CompletedGoesThrough(parts: seq<Attachment>, fate: nat -> CreateFate, stored: bool, k: nat)
    requires if stored then OnlyGood(parts, k) && Persists(fate(k)) else AllSkipped(parts, 0, |parts|)
    ensures GoesThrough(parts, fate)
  {
  }

  lemma GoodIsNotSkipped(parts: seq<Attachment>)
    requires exists k | 0 <= k < |parts| :: Acceptable(parts[k])
    ensures !AllSkipped(parts, 0, |parts|)
  {
  }

  lemma {:induction false} SomeAreNotSkipped(parts: seq<Attachment>, to: nat) returns (k: nat)
    requires to <= |parts| && !AllSkipped(parts, 0, to)
    ensures k < to && AllSkipped(parts, 0, k) && !Screen(true, parts[k]).Skip?
  {
    if AllSkipped(parts, 0, to - 1) { k := to - 1; } else { k := SomeAreNotSkipped(parts, to - 1); }
  }

  /** Without faults only the attachments decide: the delivery completes unless the first one that is not
      skipped is refused, or is good but not alone. */
  lemma {:induction false} FaultFreeGoesThroughIff(parts: seq<Attachment>, fate: nat -> CreateFate)
    requires forall n :: fate(n) == NO_FAULT
    ensures GoesThrough(parts, fate) <==> !FirstIsRefused(parts) && !FirstIsNotAlone(parts)
  {
    if !AllSkipped(parts, 0, |parts|) {
      var k := SomeAreNotSkipped(parts, |parts|);
      if Screen(true, parts[k]).Refuse? {
        FailsAtTheFirst(parts, k, fate);
      } else if !AllSkipped(parts, k + 1, |parts|) {
        var j :| k + 1 <= j < |parts| && !Screen(true, parts[j]).Skip?;
        FailsAtTheSecond(parts, k, j, fate);
      } else {
        assert OnlyGood(parts, k) && Persists(fate(k));
        NeitherRefusedNorFollowed(parts, k);
      }
    }
  }

  lemma NeitherRefusedNorFollowed(parts: seq<Attachment>, k: int)
    requires OnlyGood(parts, k)
    ensures !FirstIsRefused(parts) && !FirstIsNotAlone(parts)
  {
    forall j | 0 <= j < |parts| && AllSkipped(parts, 0, j) && !Screen(true, parts[j]).Skip? ensures j == k {
      OneFirstCandidate(parts, k, j);
    }
  }
}
