/** The ingestion pipeline as one interleaved transition system.

    Every API call, worker task and mailbox sync is a record with a program counter; an event runs
    one statement of one record, so a sequence of events is an arbitrary interleaving. The outcome
    of each fallible statement (object store, commit, broker) is chosen by the event. Database
    constraints appear as guards that make an insert fail. */
module Machine {
  import opened Domain
  import opened Mail

  // How a fallible statement ends. `AppliedButFails` is the lost acknowledgement: the effect took
  // place but the caller saw an exception. `Rejects` is a domain error of the OCR step.
  datatype Outcome = Succeeds | Fails | AppliedButFails | Rejects

  /** The statement's effect took place, whether or not its caller learned it. */
  predicate Applied(out: Outcome) {
    out == Succeeds || out == AppliedButFails
  }

  datatype Row = Row(owner: UserId, key: BlobKey, external: Option<MessageId>, status: Status)

  datatype Expense = Expense(owner: UserId, receipt: Option<ReceiptId>)

  // ----- in-flight work -----------------------------------------------------

  // Creating receipts: an inbound email (external is Some) or a direct upload of one part.
  datatype IngestStage =
    | Checking                       // about to run the dedup query
    | Looping                        // at the head of the attachment loop
    | Stored(key: BlobKey)           // blob written; the row's commit is next
    | RollingBack(key: BlobKey)      // commit raised; deleting the blob is next
    | Persisted(receipt: ReceiptId)  // committed; enqueueing is next
    | Finished(deduped: bool)
    | Raised
    | Dead                           // the process crashed here
  datatype Ingest =
    Ingest(owner: UserId, external: Option<MessageId>, parts: seq<Attachment>, pos: nat, stage: IngestStage)

  datatype DeletionStage = Finding | Found(key: BlobKey) | Wiping(key: BlobKey) | DeletionOver
  datatype Deletion = Deletion(owner: UserId, receipt: ReceiptId, stage: DeletionStage)

  datatype RetryStage = Fetching | Resetting | Enqueueing | RetryOver
  datatype Retry = Retry(owner: UserId, receipt: ReceiptId, stage: RetryStage)

  // Worker tasks. `retries` counts the retries already spent.
  datatype TaskKind = Process | Categorise
  datatype TaskStage =
    | Queued
    // process_receipt
    | Loaded(snap: Status)                       // row read; marking it processing is next
    | Marked                                     // OCR and parsing are next
    | Committing                                 // parsed in memory; the commit is next
    | Handoff                                    // parsed is committed; enqueueing is next
    | Marker(again: bool)                        // writing the failure marker is next
    // categorise_receipt
    | Read(snap: Status, owner: UserId)          // row read; looking for an expense is next
    | Ready(owner: UserId)                       // both guards passed; the insert is next
    | Fixing                                     // expense exists; correcting the status is next
    // over
    | Done
    | Exhausted(marked: bool)                    // no retries left; was the failure recorded?
    | Lost                                       // acknowledged without finishing (killed child)
  datatype Task = Task(kind: TaskKind, receipt: ReceiptId, retries: nat, stage: TaskStage)

  const MAX_RETRIES: nat := 3

  // The mailbox: messages in history order, and the contents they were added with.
  datatype LogEntry = LogEntry(history: HistoryId, message: MessageId)
  // A connection keeps the sync cursor. `seed` is history: the largest id it was ever seeded with.
  datatype Connection = Connection(owner: UserId, cursor: Option<HistoryId>, seed: HistoryId)

  datatype SyncStage =
    | Pending
    | Opened(start: Option<HistoryId>)                     // connection row read
    | Listing(from: HistoryId, upto: HistoryId)            // history walk began at head `upto`
    | Walking(from: HistoryId, todo: seq<MessageId>, pos: nat, reseed: bool)
    | Awaiting(from: HistoryId, todo: seq<MessageId>, pos: nat, reseed: bool, delivery: nat)
    | Synced
    | GivenUp
  datatype Sync = Sync(connection: nat, push: HistoryId, retries: nat, stage: SyncStage)

  datatype HistoryAnswer = Pages(pages: seq<seq<MessageId>>) | TooOld

  // ----- state --------------------------------------------------------------

  datatype Database = Database(
    rows: map<ReceiptId, Row>, expenses: map<ExpenseId, Expense>, nextRow: ReceiptId, nextExpense: ExpenseId)

  datatype Bucket = Bucket(blobs: set<BlobKey>, nextKey: BlobKey)

  datatype Mailbox = Mailbox(
    log: seq<LogEntry>, contents: map<MessageId, Part>, head: HistoryId, connections: seq<Connection>)

  // What happened so far. No step reads it.
  datatype Past = Past(
    attached: set<BlobKey>,               // keys some row has ever pointed at
    excused: set<BlobKey>,                // keys let go by a crash or a failed delete
    unacked: set<BlobKey>,                // keys whose row committed without the caller learning it
    wiped: set<BlobKey>,                  // keys removed by the clean-up after a failed commit
    delivered: set<(UserId, MessageId)>,  // messages a receipt was ever committed for
    expensed: set<ReceiptId>,             // receipts an expense was ever committed for
    stranded: set<ReceiptId>)             // receipts whose enqueueing crashed or failed

  datatype State = State(
    db: Database, bucket: Bucket,
    ingests: seq<Ingest>, deletions: seq<Deletion>, retries: seq<Retry>, tasks: seq<Task>, syncs: seq<Sync>,
    mail: Mailbox,
    past: Past)

  const INITIAL: State := State(
    Database(map[], map[], 0, 0), Bucket({}, 0),
    [], [], [], [], [],
    Mailbox([], map[], 0, []),
    Past({}, {}, {}, {}, {}, {}, {}))

  // ----- creating receipts --------------------------------------------------

  predicate HasMessage(s: State, owner: UserId, message: Option<MessageId>) {
    exists id <- s.db.rows :: s.db.rows[id].owner == owner && s.db.rows[id].external == message
  }

  /** The partial unique index on (user, external message id). */
  predicate ViolatesMessageIndex(s: State, owner: UserId, message: Option<MessageId>) {
    message.Some? && HasMessage(s, owner, message)
  }

  function RemoveBlob(b: Bucket, key: BlobKey): Bucket {
    b.(blobs := b.blobs - {key})
  }

  function Excuse(p: Past, key: BlobKey): Past {
    p.(excused := p.excused + {key})
  }

  function Strand(p: Past, id: ReceiptId): Past {
    p.(stranded := p.stranded + {id})
  }

  function AtStage(s: State, i: nat, stage: IngestStage): State
    requires i < |s.ingests|
  {
    s.(ingests := s.ingests[i := s.ingests[i].(stage := stage)])
  }

  function StepIngest(s: State, i: nat, out: Outcome): State
    requires i < |s.ingests|
  {
    var g := s.ingests[i];
    match g.stage
    case Checking =>
      if out != Succeeds then AtStage(s, i, Raised)
      else AtStage(s, i, if HasMessage(s, g.owner, g.external) then Finished(true) else Looping)
    case Looping => StepLoop(s, i, out)
    case Stored(key) => StepCommitRow(s, i, key, out)
    case RollingBack(key) =>
      if out == Succeeds || out == AppliedButFails then
        AtStage(s, i, Raised).(bucket := RemoveBlob(s.bucket, key), past := s.past.(wiped := s.past.wiped + {key}))
      else
        AtStage(s, i, Raised).(past := Excuse(s.past, key))
    case Persisted(id) =>
      var queued := s.tasks + [Task(Process, id, 0, Queued)];
      if out == Succeeds then
        s.(tasks := queued, ingests := s.ingests[i := g.(pos := g.pos + 1, stage := Looping)])
      else if out == AppliedButFails then AtStage(s, i, Raised).(tasks := queued)
      else AtStage(s, i, Raised).(past := Strand(s.past, id))
    case _ => s
  }

  function StepLoop(s: State, i: nat, out: Outcome): State
    requires i < |s.ingests| && s.ingests[i].stage == Looping
  {
    var g := s.ingests[i];
    if g.pos >= |g.parts| then AtStage(s, i, Finished(false))
    else
      match Screen(g.external.Some?, g.parts[g.pos])
      case Skip => s.(ingests := s.ingests[i := g.(pos := g.pos + 1)])
      case Refuse => AtStage(s, i, Raised)
      case Accept =>
        var key := s.bucket.nextKey;
        if out == Succeeds then
          AtStage(s, i, Stored(key)).(bucket := Bucket(s.bucket.blobs + {key}, key + 1))
        else if out == AppliedButFails then
          AtStage(s, i, Raised).(bucket := Bucket(s.bucket.blobs + {key}, key + 1), past := Excuse(s.past, key))
        else
          AtStage(s, i, Raised).(bucket := s.bucket.(nextKey := key + 1))
  }

  function InsertRow(s: State, g: Ingest, key: BlobKey): State {
    s.(db := s.db.(rows := s.db.rows[s.db.nextRow := Row(g.owner, key, g.external, Uploaded)],
                   nextRow := s.db.nextRow + 1),
       past := s.past.(
         attached := s.past.attached + {key},
         delivered := if g.external.Some? then s.past.delivered + {(g.owner, g.external.value)} else s.past.delivered))
  }

  function StepCommitRow(s: State, i: nat, key: BlobKey, out: Outcome): State
    requires i < |s.ingests|
  {
    var g := s.ingests[i];
    if ViolatesMessageIndex(s, g.owner, g.external) || out == Fails || out == Rejects then
      AtStage(s, i, RollingBack(key))
    else if out == AppliedButFails then
      InsertRow(
        AtStage(s, i, RollingBack(key)).(past := Strand(s.past, s.db.nextRow).(unacked := s.past.unacked + {key})),
        g, key)
    else
      InsertRow(AtStage(s, i, Persisted(s.db.nextRow)), g, key)
  }

  function CrashIngest(s: State, i: nat): State
    requires i < |s.ingests|
  {
    match s.ingests[i].stage
    case Stored(key) => AtStage(s, i, Dead).(past := Excuse(s.past, key))
    case RollingBack(key) => AtStage(s, i, Dead).(past := Excuse(s.past, key))
    case Persisted(id) => AtStage(s, i, Dead).(past := Strand(s.past, id))
    case Finished(_) => s
    case Raised => s
    case _ => AtStage(s, i, Dead)
  }

  // ----- deleting a receipt -------------------------------------------------

  function DropRow(s: State, id: ReceiptId): State {
    s.(db := s.db.(rows := s.db.rows - {id},
                   expenses := map e <- s.db.expenses ::
                     if s.db.expenses[e].receipt == Some(id) then s.db.expenses[e].(receipt := None)
                     else s.db.expenses[e]))
  }

  function StepDeletion(s: State, i: nat, out: Outcome): State
    requires i < |s.deletions|
  {
    var d := s.deletions[i];
    var at := (stage: DeletionStage) => s.deletions[i := d.(stage := stage)];
    match d.stage
    case Finding =>
      if out == Succeeds && d.receipt in s.db.rows && s.db.rows[d.receipt].owner == d.owner
      then s.(deletions := at(Found(s.db.rows[d.receipt].key)))
      else s.(deletions := at(DeletionOver))
    case Found(key) =>
      if out == Succeeds then DropRow(s, d.receipt).(deletions := at(Wiping(key)))
      else if out == AppliedButFails then
        DropRow(s, d.receipt).(deletions := at(DeletionOver), past := Excuse(s.past, key))
      else s.(deletions := at(DeletionOver))
    case Wiping(key) =>
      if out == Succeeds || out == AppliedButFails
      then s.(bucket := RemoveBlob(s.bucket, key), deletions := at(DeletionOver))
      else s.(past := Excuse(s.past, key), deletions := at(DeletionOver))
    case DeletionOver => s
  }

  function CrashDeletion(s: State, i: nat): State
    requires i < |s.deletions|
  {
    var d := s.deletions[i];
    var over := s.(deletions := s.deletions[i := d.(stage := DeletionOver)]);
    if d.stage.Wiping? then over.(past := Excuse(s.past, d.stage.key)) else over
  }

  // ----- retrying a failed receipt ------------------------------------------

  predicate SameIdentity(a: Row, b: Row) {
    a.owner == b.owner && a.key == b.key && a.external == b.external
  }

  predicate SameRows(s: State, s': State) {
    && s.db.rows.Keys == s'.db.rows.Keys
    && forall id <- s.db.rows :: SameIdentity(s.db.rows[id], s'.db.rows[id])
  }

  function SetStatus(s: State, id: ReceiptId, status: Status): (s': State)
    requires id in s.db.rows
    ensures SameRows(s, s')
  {
    s.(db := s.db.(rows := s.db.rows[id := s.db.rows[id].(status := status)]))
  }

  function StepRetry(s: State, i: nat, out: Outcome): State
    requires i < |s.retries|
  {
    var r := s.retries[i];
    var at := (stage: RetryStage) => s.retries[i := r.(stage := stage)];
    match r.stage
    case Fetching =>
      if && out == Succeeds && r.receipt in s.db.rows
         && s.db.rows[r.receipt].owner == r.owner && s.db.rows[r.receipt].status == Failed
      then s.(retries := at(Resetting))
      else s.(retries := at(RetryOver))
    case Resetting =>
      if out == Fails || out == Rejects || r.receipt !in s.db.rows then s.(retries := at(RetryOver))
      else if out == AppliedButFails then
        SetStatus(s, r.receipt, Uploaded).(retries := at(RetryOver), past := Strand(s.past, r.receipt))
      else SetStatus(s, r.receipt, Uploaded).(retries := at(Enqueueing))
    case Enqueueing =>
      var queued := s.tasks + [Task(Process, r.receipt, 0, Queued)];
      if out == Succeeds || out == AppliedButFails then s.(retries := at(RetryOver), tasks := queued)
      else s.(retries := at(RetryOver), past := Strand(s.past, r.receipt))
    case RetryOver => s
  }

  function CrashRetry(s: State, i: nat): State
    requires i < |s.retries|
  {
    var r := s.retries[i];
    var over := s.(retries := s.retries[i := r.(stage := RetryOver)]);
    if r.stage == Enqueueing then over.(past := Strand(s.past, r.receipt)) else over
  }

  // ----- worker tasks -------------------------------------------------------

  // What one statement of a task does: write the receipt's status, insert the expense for a user,
  // enqueue the categorise task, and move the task on.
  datatype Effect = Effect(write: Option<Status>, expenseFor: Option<UserId>, enqueue: bool, next: Task)

  function Goto(t: Task, stage: TaskStage): Effect {
    Effect(None, None, false, t.(stage := stage))
  }

  /** An exception reached the task wrapper: requeue, or give up after the last retry. */
  function Again(t: Task, marked: bool): Effect {
    if t.retries < MAX_RETRIES
    then Effect(None, None, false, t.(retries := t.retries + 1, stage := Queued))
    else Goto(t, Exhausted(marked))
  }

  /** process_receipt. The ORM writes a column only when it differs from the value read, and an
      UPDATE that finds no row raises. */
  function StepProcess(db: Database, t: Task, out: Outcome): (r: Effect)
    ensures r.write.Some? ==> t.receipt in db.rows
  {
    var found := t.receipt in db.rows;
    match t.stage
    case Queued =>
      if out != Succeeds then Again(t, false)
      else if !found then Goto(t, Done)
      else Goto(t, Loaded(db.rows[t.receipt].status))
    case Loaded(snap) =>
      if snap == Processing then (if out == Succeeds then Goto(t, Marked) else Again(t, false))
      else if !found || out == Fails || out == Rejects then Again(t, false)
      else if out == AppliedButFails then Again(t, false).(write := Some(Processing))
      else Goto(t, Marked).(write := Some(Processing))
    case Marked =>
      if out == Succeeds then Goto(t, Committing) else Goto(t, Marker(out != Rejects))
    case Committing =>
      if !found || out == Fails || out == Rejects then Goto(t, Marker(true))
      else if out == AppliedButFails then Goto(t, Marker(true)).(write := Some(Parsed))
      else Goto(t, Handoff).(write := Some(Parsed))
    case Handoff =>
      if out == Succeeds then Goto(t, Done).(enqueue := true)
      else Goto(t, Marker(true)).(enqueue := out == AppliedButFails)
    case Marker(again) =>
      if !found || out == Fails || out == Rejects then Again(t, false)
      else if out == AppliedButFails || again then Again(t, true).(write := Some(Failed))
      else Goto(t, Done).(write := Some(Failed))
    case _ => Goto(t, t.stage)
  }

  predicate HasExpense(db: Database, id: ReceiptId) {
    exists e <- db.expenses :: db.expenses[e].receipt == Some(id)
  }

  /** categorise_receipt. The insert fails on a missing receipt (foreign key) and on a second
      expense for the same receipt (unique column); it commits together with the status. */
  function StepCategorise(db: Database, t: Task, out: Outcome): (r: Effect)
    ensures r.write.Some? ==> t.receipt in db.rows
  {
    var found := t.receipt in db.rows;
    match t.stage
    case Queued =>
      if out != Succeeds then Again(t, false)
      else if !found then Goto(t, Done)
      else Goto(t, Read(db.rows[t.receipt].status, db.rows[t.receipt].owner))
    case Read(snap, owner) =>
      if out != Succeeds then Again(t, false)
      else if HasExpense(db, t.receipt) then Goto(t, if snap == Categorised then Done else Fixing)
      else if snap != Parsed then Goto(t, Done)
      else Goto(t, Ready(owner))
    case Ready(owner) =>
      if !found || HasExpense(db, t.receipt) || out == Fails || out == Rejects then Again(t, false)
      else
        (if out == AppliedButFails then Again(t, false) else Goto(t, Done))
        .(write := Some(Categorised), expenseFor := Some(owner))
    case Fixing =>
      if !found || out == Fails || out == Rejects then Again(t, false)
      else (if out == AppliedButFails then Again(t, false) else Goto(t, Done)).(write := Some(Categorised))
    case _ => Goto(t, t.stage)
  }

  function Decide(db: Database, t: Task, out: Outcome): (r: Effect)
    ensures r.write.Some? ==> t.receipt in db.rows
  {
    if t.kind.Process? then StepProcess(db, t, out) else StepCategorise(db, t, out)
  }

  function AddExpenseRow(db: Database, e: Expense): Database {
    db.(expenses := db.expenses[db.nextExpense := e], nextExpense := db.nextExpense + 1)
  }

  function Perform(s: State, i: nat, effect: Effect): State
    requires i < |s.tasks|
    requires effect.write.Some? ==> s.tasks[i].receipt in s.db.rows
  {
    var id := s.tasks[i].receipt;
    var written := if effect.write.Some? then SetStatus(s, id, effect.write.value) else s;
    var moved := s.tasks[i := effect.next];
    written.(
      db := if effect.expenseFor.Some? then AddExpenseRow(written.db, Expense(effect.expenseFor.value, Some(id)))
            else written.db,
      past := if effect.expenseFor.Some? then s.past.(expensed := s.past.expensed + {id}) else s.past,
      tasks := if effect.enqueue then moved + [Task(Categorise, id, 0, Queued)] else moved)
  }

  function StepTask(s: State, i: nat, out: Outcome): State
    requires i < |s.tasks|
  {
    Perform(s, i, Decide(s.db, s.tasks[i], out))
  }

  predicate Over(stage: TaskStage) {
    stage.Done? || stage.Exhausted? || stage.Lost?
  }

  /** The worker died: with late acknowledgement the broker delivers the task again. */
  function RedeliverTask(s: State, i: nat): State
    requires i < |s.tasks|
  {
    if Over(s.tasks[i].stage) then s else s.(tasks := s.tasks[i := s.tasks[i].(stage := Queued)])
  }

  /** The broker delivers a task once more while the first copy lives on, or after it finished: the
      worker died between its last commit and the acknowledgement. */
  function DuplicateTask(s: State, i: nat): State
    requires i < |s.tasks|
  {
    s.(tasks := s.tasks + [s.tasks[i].(stage := Queued)])
  }

  /** The child process was killed (time limit, out of memory): the task is acknowledged unfinished. */
  function LoseTask(s: State, i: nat): State
    requires i < |s.tasks|
  {
    if Over(s.tasks[i].stage) then s else s.(tasks := s.tasks[i := s.tasks[i].(stage := Lost)])
  }

  // ----- mailbox sync -------------------------------------------------------

  function SyncAt(s: State, i: nat, stage: SyncStage): State
    requires i < |s.syncs|
  {
    s.(syncs := s.syncs[i := s.syncs[i].(stage := stage)])
  }

  function SyncAgain(s: State, i: nat): State
    requires i < |s.syncs|
  {
    var y := s.syncs[i];
    if y.retries < MAX_RETRIES
    then s.(syncs := s.syncs[i := y.(retries := y.retries + 1, stage := Pending)])
    else SyncAt(s, i, GivenUp)
  }

  function Distinct(ids: seq<MessageId>): seq<MessageId> {
    if ids == [] then []
    else
      var front := Distinct(ids[..|ids| - 1]);
      if ids[|ids| - 1] in front then front else front + [ids[|ids| - 1]]
  }

  function Concat(pages: seq<seq<MessageId>>): seq<MessageId> {
    if pages == [] then [] else Concat(pages[..|pages| - 1]) + pages[|pages| - 1]
  }

  /** What the provider promises: the pages name every message added after `from` and no later than
      the head seen when the walk began. */
  predicate CoversHistory(s: State, from: HistoryId, upto: HistoryId, pages: seq<seq<MessageId>>) {
    forall entry <- s.mail.log | from < entry.history <= upto :: entry.message in Concat(pages)
  }

  function MoveCursor(s: State, c: nat, push: HistoryId, seeding: bool): State
    requires c < |s.mail.connections|
  {
    var k := s.mail.connections[c];
    s.(mail := s.mail.(connections := s.mail.connections[c := k.(
      cursor := Some(push),
      seed := if seeding && push > k.seed then push else k.seed)]))
  }

  function StepSync(s: State, i: nat, out: Outcome, answer: HistoryAnswer): State
    requires i < |s.syncs|
  {
    var y := s.syncs[i];
    match y.stage
    case Pending =>
      if out != Succeeds then SyncAgain(s, i)
      else if y.connection >= |s.mail.connections| then SyncAt(s, i, Synced)
      else SyncAt(s, i, Opened(s.mail.connections[y.connection].cursor))
    case Opened(start) =>
      if y.connection >= |s.mail.connections| then s
      else if start.None? then
        (if out == Fails || out == Rejects then SyncAgain(s, i)
         else if out == AppliedButFails then SyncAgain(MoveCursor(s, y.connection, y.push, true), i)
         else SyncAt(MoveCursor(s, y.connection, y.push, true), i, Synced))
      else if out != Succeeds then SyncAgain(s, i)
      else SyncAt(s, i, Listing(start.value, s.mail.head))
    case Listing(from, upto) =>
      if out != Succeeds then SyncAgain(s, i)
      else
        (match answer
         case TooOld => SyncAt(s, i, Walking(from, [], 0, true))
         case Pages(pages) =>
           if CoversHistory(s, from, upto, pages)
           then SyncAt(s, i, Walking(from, Distinct(Concat(pages)), 0, false))
           else s)
    case Walking(from, todo, pos, reseed) =>
      if y.connection >= |s.mail.connections| then s
      else if pos >= |todo| then CloseSync(s, i, from, reseed, out)
      else if out != Succeeds || todo[pos] !in s.mail.contents then SyncAgain(s, i)
      else
        var parts := Attachments(s.mail.contents[todo[pos]]);
        if parts == [] then SyncAt(s, i, Walking(from, todo, pos + 1, reseed))
        else
          var delivery := Ingest(s.mail.connections[y.connection].owner, Some(todo[pos]), parts, 0, Checking);
          SyncAt(s, i, Awaiting(from, todo, pos, reseed, |s.ingests|)).(ingests := s.ingests + [delivery])
    case Awaiting(from, todo, pos, reseed, delivery) =>
      if delivery >= |s.ingests| then s
      else
        (match s.ingests[delivery].stage
         case Finished(_) => SyncAt(s, i, Walking(from, todo, pos + 1, reseed))
         case Raised => SyncAgain(s, i)
         case Dead => SyncAgain(s, i)
         case _ => s)
    case _ => s
  }

  /** The cursor write at the end of a sync; nothing is written when the value did not change. */
  function CloseSync(s: State, i: nat, from: HistoryId, reseed: bool, out: Outcome): State
    requires i < |s.syncs| && s.syncs[i].connection < |s.mail.connections|
  {
    var y := s.syncs[i];
    var moved := if from == y.push then s else MoveCursor(s, y.connection, y.push, reseed);
    if out == Fails || out == Rejects then SyncAgain(s, i)
    else if out == AppliedButFails then SyncAgain(moved, i)
    else SyncAt(moved, i, Synced)
  }

  function RestartSync(s: State, i: nat): State
    requires i < |s.syncs|
  {
    if s.syncs[i].stage.Synced? || s.syncs[i].stage.GivenUp? then s else SyncAt(s, i, Pending)
  }

  // ----- events -------------------------------------------------------------

  datatype Event =
    // callers
    | BeginUpload(owner: UserId, part: Attachment)
    | BeginDelivery(owner: UserId, message: MessageId, parts: seq<Attachment>)
    | BeginDeletion(owner: UserId, receipt: ReceiptId)
    | BeginRetry(owner: UserId, receipt: ReceiptId)
    | AddExpense(owner: UserId)
    | RemoveExpense(expense: ExpenseId)
    | Connect(owner: UserId)
    // one statement of something in flight
    | RunIngest(i: nat, out: Outcome)
    | RunDeletion(i: nat, out: Outcome)
    | RunRetry(i: nat, out: Outcome)
    | RunTask(i: nat, out: Outcome)
    | RunSync(i: nat, out: Outcome, answer: HistoryAnswer)
    // crashes and redelivery
    | IngestDies(i: nat)
    | DeletionDies(i: nat)
    | RetryDies(i: nat)
    | TaskRedelivered(i: nat)
    | TaskDuplicated(i: nat)
    | TaskKilled(i: nat)
    | SyncRedelivered(i: nat)
    // the outside world
    | MailArrives(history: HistoryId, message: MessageId, payload: Part)
    | HeadMoves(history: HistoryId)
    | PushArrives(connection: nat, history: HistoryId)

  /** One event. An event that names nothing in flight leaves the state as it is. */
  function Next(s: State, e: Event): State {
    match e
    case BeginUpload(owner, part) =>
      s.(ingests := s.ingests + [Ingest(owner, None, [part], 0, Looping)])
    case BeginDelivery(owner, message, parts) =>
      s.(ingests := s.ingests + [Ingest(owner, Some(message), parts, 0, Checking)])
    case BeginDeletion(owner, id) => s.(deletions := s.deletions + [Deletion(owner, id, Finding)])
    case BeginRetry(owner, id) => s.(retries := s.retries + [Retry(owner, id, Fetching)])
    case AddExpense(owner) =>
      s.(db := AddExpenseRow(s.db, Expense(owner, None)))
    case RemoveExpense(id) => s.(db := s.db.(expenses := s.db.expenses - {id}))
    case Connect(owner) => s.(mail := s.mail.(connections := s.mail.connections + [Connection(owner, None, 0)]))
    case RunIngest(i, out) => if i < |s.ingests| then StepIngest(s, i, out) else s
    case RunDeletion(i, out) => if i < |s.deletions| then StepDeletion(s, i, out) else s
    case RunRetry(i, out) => if i < |s.retries| then StepRetry(s, i, out) else s
    case RunTask(i, out) => if i < |s.tasks| then StepTask(s, i, out) else s
    case RunSync(i, out, answer) => if i < |s.syncs| then StepSync(s, i, out, answer) else s
    case IngestDies(i) => if i < |s.ingests| then CrashIngest(s, i) else s
    case DeletionDies(i) => if i < |s.deletions| then CrashDeletion(s, i) else s
    case RetryDies(i) => if i < |s.retries| then CrashRetry(s, i) else s
    case TaskRedelivered(i) => if i < |s.tasks| then RedeliverTask(s, i) else s
    case TaskDuplicated(i) => if i < |s.tasks| then DuplicateTask(s, i) else s
    case TaskKilled(i) => if i < |s.tasks| then LoseTask(s, i) else s
    case SyncRedelivered(i) => if i < |s.syncs| then RestartSync(s, i) else s
    case MailArrives(history, message, payload) =>
      if history <= s.mail.head then s
      else
        s.(mail := s.mail.(
          log := s.mail.log + [LogEntry(history, message)], head := history,
          contents := if message in s.mail.contents then s.mail.contents else s.mail.contents[message := payload]))
    case HeadMoves(history) => if history <= s.mail.head then s else s.(mail := s.mail.(head := history))
    case PushArrives(c, history) =>
      if history <= s.mail.head
        && c < |s.mail.connections| then s.(syncs := s.syncs + [Sync(c, history, 0, Pending)]) else s
  }

  function Run(s: State, events: seq<Event>): State {
    if events == [] then s
    else Next(Run(s, events[..|events| - 1]), events[|events| - 1])
  }

  lemma {:induction false} RunConcat(s: State, first: seq<Event>, second: seq<Event>)
    ensures Run(s, first + second) == Run(Run(s, first), second)
  {
    if second == [] {
      assert first + second == first;
    } else {
      var init := second[..|second| - 1];
      assert (first + second)[..|first + second| - 1] == first + init;
      RunConcat(s, first, init);
    }
  }

  lemma RunSnoc(s: State, events: seq<Event>, e: Event)
    ensures Run(s, events + [e]) == Next(Run(s, events), e)
  {
    assert (events + [e])[..|events|] == events;
  }
}
