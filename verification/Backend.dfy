/** The services as they run one call at a time, statement by statement, on mutable state. Every
    method also plays the matching events on the interleaved machine and ends in agreement with it,
    so what is proved of all runs holds of every state these methods leave behind. Fates are inputs:
    how each fallible statement of a call ends. */
module Backend {
  import opened Domain
  import opened Mail
  import opened Machine
  import opened Payload
  import opened Serial
  import Calendar
  import ExpenseStore
  import Coverage

  // ----- pure steps ---------------------------------------------------------

  /** The branches of the pipeline. */
  method OcrAndParse(inputs: OcrInputs) returns (r: OcrResult)
    requires Sound(inputs)
    ensures OcrSays(inputs, r)
  {
    if !inputs.downloaded { return Crashed("download failed"); }
    if inputs.isPdf {
      if !inputs.decodes { return PipelineError("Could not rasterise PDF"); }
    } else {
      if !inputs.decodes { return PipelineError("Could not decode image"); }
    }
    if !inputs.readable { return Crashed("tesseract failed"); }
    var parsed, ocrMethod;
    if inputs.confidence < inputs.threshold && inputs.hasKey {
      if inputs.vision.Some? {
        parsed, ocrMethod := inputs.vision.value, Gpt4v;
      } else {
        parsed, ocrMethod := ParseReceiptText(inputs.text, inputs.date), Tesseract;
      }
    } else {
      parsed, ocrMethod := ParseReceiptText(inputs.text, inputs.date), Tesseract;
    }
    r := Extracted(ToJsonable(parsed), ocrMethod);
  }

  /** seen.setdefault for every message of a page. */
  method AddPage(seen: seq<MessageId>, ghost before: seq<MessageId>, page: seq<MessageId>) returns (all: seq<MessageId>)
    requires seen == Distinct(before)
    ensures all == Distinct(before + page)
  {
    hide Distinct;
    all := seen;
    assert before + page[..0] == before;
    for j := 0 to |page|
      invariant all == Distinct(before + page[..j])
    {
      DistinctSnoc(before + page[..j], page[j]);
      assert before + page[..j] + [page[j]] == before + page[..j + 1];
      if page[j] !in all { all := all + [page[j]]; }
    }
    assert page[..|page|] == page;
  }

  /** Every added message once, in order of first appearance. A start id that is too old yields none,
      whatever was seen before. None is an error. */
  method ListAddedMessageIds(walk: HistoryWalk) returns (ids: Option<seq<MessageId>>)
    ensures ids.None? <==> walk.end.Broken?
    ensures walk.end.Gone? ==> ids == Some([])
    ensures walk.end.Complete? ==> ids == Some(Distinct(Concat(walk.pages)))
  {
    hide Distinct;
    var seen: seq<MessageId> := [];
    NothingSeen();
    for k := 0 to |walk.pages|
      invariant seen == Distinct(Concat(walk.pages[..k]))
    {
      assert walk.pages[..k + 1][..k] == walk.pages[..k];
      seen := AddPage(seen, Concat(walk.pages[..k]), walk.pages[k]);
    }
    assert walk.pages[..|walk.pages|] == walk.pages;
    match walk.end
    case Complete => ids := Some(seen);
    case Gone => ids := Some([]);
    case Broken => ids := None;
  }

  /** The category of an expense: the first of correction, rule and classifier that speaks. */
  lemma SpendingSpeaks(
    payload: Option<StoredPayload>, today: Calendar.Date, corrections: ExpenseStore.Learned, owner: UserId,
    lookupRule: string -> Option<Category>, hasKey: bool, classifier: Option<Category>)
    ensures
      var merchant := CoercePayload(payload, today).0;
      var c := ExpenseStore.CategoriseMerchant(corrections, owner, Some(merchant), lookupRule, hasKey, classifier);
      var key := (owner, ExpenseStore.Normalise(merchant));
      && (key in corrections ==> c == corrections[key].category)
      && (key !in corrections && lookupRule(key.1).Some? ==> c == lookupRule(key.1).value)
      && (key !in corrections && lookupRule(key.1).None? ==>
            c == if hasKey && classifier.Some? then classifier.value else Other)
  {
  }

  // ----- the services -------------------------------------------------------

  class Service {
    var db: Database
    var bucket: Bucket
    var queue: seq<Task>
    var mail: Mailbox
    var details: map<ReceiptId, Details>
    var ledger: map<ExpenseId, Spending>
    ghost var world: State
    ghost var trace: seq<Event>

    ghost predicate Valid()
      reads this
    {
      && world == Run(INITIAL, trace)
      && world.db == db && world.bucket == bucket && world.tasks == queue && world.mail == mail
      && FieldsOk(db, bucket, details) && ledger.Keys == db.expenses.Keys
    }

    constructor ()
      ensures Valid() && trace == []
      ensures db == INITIAL.db && queue == [] && details == map[] && ledger == map[]
    {
      db, bucket, queue, mail := INITIAL.db, INITIAL.bucket, [], INITIAL.mail;
      details, ledger := map[], map[];
      world, trace := INITIAL, [];
    }

    ghost method Play(e: Event)
      requires world == Run(INITIAL, trace)
      modifies this`world, this`trace
      ensures world == Run(INITIAL, trace) && world == Next(old(world), e) && trace == old(trace) + [e]
    {
      RunSnoc(INITIAL, trace, e);
      world, trace := Next(world, e), trace + [e];
    }

    ghost predicate Ingesting(i: nat, owner: UserId, external: Option<MessageId>, parts: seq<Attachment>, pos: nat)
      reads this
    {
      && i < |world.ingests| && pos <= |parts|
      && world.ingests[i].owner == owner && world.ingests[i].external == external
      && world.ingests[i].parts == parts && world.ingests[i].pos == pos
    }

    // --- statements of create_receipt ---

    /** put_object under a fresh key. */
    method PutObject(ghost i: nat, out: Outcome) returns (key: BlobKey)
      requires Valid() && i < |world.ingests| && world.ingests[i].stage == Looping
      requires world.ingests[i].pos < |world.ingests[i].parts|
      requires Screen(world.ingests[i].external.Some?, world.ingests[i].parts[world.ingests[i].pos]).Accept?
      modifies this`bucket, this`world, this`trace
      ensures Valid() && OnlyIngest(old(world), world, i)
      ensures key == old(bucket.nextKey) && bucket.nextKey == key + 1
      ensures bucket.blobs == if Applied(out) then old(bucket.blobs) + {key} else old(bucket.blobs)
      ensures world.ingests[i] == old(world.ingests[i]).(stage := if out == Succeeds then Stored(key) else Raised)
    {
      hide FieldsOk, Next, Run;
      PutEvent(world, i, out);
      PutIsOk(db, bucket, details, out);
      key := bucket.nextKey;
      bucket := Bucket(if Applied(out) then bucket.blobs + {key} else bucket.blobs, key + 1);
      Play(RunIngest(i, out));
    }

    /** INSERT and commit. The partial unique index makes a second row for the message fail. */
    method CommitReceipt(owner: UserId, external: Option<MessageId>, key: BlobKey, ghost i: nat, out: Outcome)
      returns (id: Option<ReceiptId>)
      requires Valid() && i < |world.ingests| && world.ingests[i].stage == Stored(key)
      requires world.ingests[i].owner == owner && world.ingests[i].external == external
      modifies this`db, this`details, this`world, this`trace
      ensures Valid() && OnlyIngest(old(world), world, i)
      ensures id.Some? <==> out == Succeeds && !ViolatesMessageIndex(old(world), owner, external)
      ensures id.Some? ==> id.value == old(db.nextRow)
      ensures (db, details) ==
        if !Applied(out) || ViolatesMessageIndex(old(world), owner, external) then old((db, details))
        else (AddRow(old(db), Row(owner, key, external, Uploaded)), old(details)[old(db.nextRow) := FRESH])
      ensures world.ingests[i] == old(world.ingests[i]).(
        stage := if id.Some? then Persisted(id.value) else RollingBack(key))
    {
      hide FieldsOk, Next, Run, ViolatesMessageIndex;
      CommitEvent(world, i, key, out);
      var clash := Clashes(db, owner, external);
      ClashIffViolates(world, owner, external);
      NewRowIsOk(db, bucket, details, Row(owner, key, external, Uploaded));
      id := None;
      if Applied(out) && !clash {
        var row := Row(owner, key, external, Uploaded);
        if out == Succeeds { id := Some(db.nextRow); }
        details := details[db.nextRow := FRESH];
        db := AddRow(db, row);
      }
      Play(RunIngest(i, out));
    }

    /** The clean-up of an object whose row did not commit. */
    method WipeObject(key: BlobKey, ghost i: nat, out: Outcome)
      requires Valid() && i < |world.ingests| && world.ingests[i].stage == RollingBack(key)
      modifies this`bucket, this`world, this`trace
      ensures Valid() && OnlyIngest(old(world), world, i)
      ensures bucket == if Applied(out) then RemoveBlob(old(bucket), key) else old(bucket)
      ensures world.ingests[i] == old(world.ingests[i]).(stage := Raised)
    {
      if Applied(out) { bucket := RemoveBlob(bucket, key); }
      Play(RunIngest(i, out));
    }

    method EnqueueProcessing(id: ReceiptId, ghost i: nat, out: Outcome)
      requires Valid() && i < |world.ingests| && world.ingests[i].stage == Persisted(id)
      modifies this`queue, this`world, this`trace
      ensures Valid() && OnlyIngest(old(world), world, i)
      ensures queue == if Applied(out) then old(queue) + [Task(Process, id, 0, Queued)] else old(queue)
      ensures world.ingests[i] ==
        if out == Succeeds then old(world.ingests[i]).(pos := old(world.ingests[i].pos) + 1, stage := Looping)
        else old(world.ingests[i]).(stage := Raised)
    {
      if Applied(out) { queue := queue + [Task(Process, id, 0, Queued)]; }
      Play(RunIngest(i, out));
    }

    /** The head of the loop when nothing is stored: skip the part, refuse it, or be done. */
    ghost method PassPart(i: nat)
      requires Valid() && i < |world.ingests| && world.ingests[i].stage == Looping
      requires world.ingests[i].pos < |world.ingests[i].parts| ==>
        !Screen(world.ingests[i].external.Some?, world.ingests[i].parts[world.ingests[i].pos]).Accept?
      modifies this`world, this`trace
      ensures Valid() && OnlyIngest(old(world), world, i)
      ensures world.ingests[i] ==
        var g := old(world.ingests[i]);
        if g.pos >= |g.parts| then g.(stage := Finished(false))
        else if Screen(g.external.Some?, g.parts[g.pos]).Skip? then g.(pos := g.pos + 1)
        else g.(stage := Raised)
    {
      Play(RunIngest(i, Succeeds));
    }

    // --- create_receipt ---

    method CreateReceipt(
      owner: UserId, part: Attachment, external: Option<MessageId>, fate: CreateFate,
      ghost i: nat, ghost parts: seq<Attachment>, ghost pos: nat) returns (r: CreateResult)
      requires Valid() && Ingesting(i, owner, external, parts, pos) && world.ingests[i].stage == Looping
      requires pos < |parts| && parts[pos] == part
      requires external.Some? ==> AllowedMime(part.contentType) && part.decodes
      modifies this`db, this`bucket, this`queue, this`details, this`world, this`trace
      ensures Valid() && OnlyIngest(old(world), world, i)
      ensures r.TooLarge? <==> part.size > MAX_UPLOAD_BYTES
      ensures r.Unsupported? <==> part.size <= MAX_UPLOAD_BYTES && (part.size == 0 || !part.sniffs)
      ensures r.TooLarge? || r.Unsupported? ==>
        db == old(db) && bucket == old(bucket) && queue == old(queue) && details == old(details)
      ensures Ingesting(i, owner, external, parts, world.ingests[i].pos)
      ensures r.Created? || (r.Unsupported? && external.Some?) ==>
        world.ingests[i].stage == Looping && world.ingests[i].pos == pos + 1
      ensures r.TooLarge? || r.CreateFailed? || (r.Unsupported? && external.None?) ==> world.ingests[i].stage == Raised
      ensures r.Created? ==>
        && Stores(old(db), old(bucket), old(queue), owner, external, r.id)
        && !ViolatesMessageIndex(old(world), owner, external)
      // Whatever fails, at most this row, blob and task were added.
      ensures OnlyAdds(old(db), db, owner, external)
      ensures r.CreateFailed? ==>
        && (db == old(db) || db == AddRow(old(db), Row(owner, old(bucket.nextKey), external, Uploaded)))
        && (bucket.blobs == old(bucket.blobs) || bucket.blobs == old(bucket.blobs) + {old(bucket.nextKey)})
        && (queue == old(queue) || queue == old(queue) + [Task(Process, old(db.nextRow), 0, Queued)])
      ensures r.CreateFailed? && fate == NO_FAULT ==>
        && ViolatesMessageIndex(old(world), owner, external)
        && db == old(db) && bucket.blobs == old(bucket.blobs) && queue == old(queue)
      // Which statement fails decides what is answered and what stays: the row, the blob, the task.
      ensures !r.TooLarge? && !r.Unsupported? ==>
        var key, id := old(bucket.nextKey), old(db.nextRow);
        var inserted :=
          fate.put == Succeeds && Applied(fate.commit) && !ViolatesMessageIndex(old(world), owner, external);
        var known := inserted && fate.commit == Succeeds;
        var wiped := fate.put == Succeeds && !known && Applied(fate.cleanup);
        && (r.Created? <==> known && fate.enqueue == Succeeds)
        && db == (if inserted then AddRow(old(db), Row(owner, key, external, Uploaded)) else old(db))
        && details == (if inserted then old(details)[id := FRESH] else old(details))
        && bucket.blobs == (if Applied(fate.put) && !wiped then old(bucket.blobs) + {key} else old(bucket.blobs))
        && queue ==
             (if known && Applied(fate.enqueue) then old(queue) + [Task(Process, id, 0, Queued)] else old(queue))
    {
      hide FieldsOk, Run, Next, HasMessage, OnlyAdds;
      AddsNothing(db, owner, external);
      if part.size > MAX_UPLOAD_BYTES { PassPart(i); return TooLarge; }
      if part.size == 0 { PassPart(i); return Unsupported; }
      if !part.sniffs { PassPart(i); return Unsupported; }
      ghost var before := world;
      NextKeyIsFree(db, bucket, details);
      NextRowIsNew(db, bucket, details, Row(owner, bucket.nextKey, external, Uploaded));
      AddRowOnlyAdds(db, Row(owner, bucket.nextKey, external, Uploaded));
      var key := PutObject(i, fate.put);
      if external.Some? { SameRowsSameMessages(before, world, owner, external.value); }
      if fate.put != Succeeds { return CreateFailed; }
      var id := CommitReceipt(owner, external, key, i, fate.commit);
      if id.None? {
        WipeObject(key, i, fate.cleanup);
        return CreateFailed;
      }
      EnqueueProcessing(id.value, i, fate.enqueue);
      if fate.enqueue != Succeeds { return CreateFailed; }
      r := Created(id.value);
    }

    /** One row, one blob and one task more, and nothing else. */
    ghost predicate Stores(
      db0: Database, bucket0: Bucket, queue0: seq<Task>, owner: UserId, external: Option<MessageId>, id: ReceiptId)
      reads this
    {
      && id == db0.nextRow
      && db == AddRow(db0, Row(owner, bucket0.nextKey, external, Uploaded))
      && bucket.blobs == bucket0.blobs + {bucket0.nextKey}
      && queue == queue0 + [Task(Process, id, 0, Queued)]
    }

    /** A direct upload. */
    method UploadReceipt(owner: UserId, part: Attachment, fate: CreateFate) returns (r: CreateResult)
      requires Valid()
      modifies this
      ensures Valid() && mail == old(mail)
      ensures r.TooLarge? <==> part.size > MAX_UPLOAD_BYTES
      ensures r.Unsupported? <==> part.size <= MAX_UPLOAD_BYTES && (part.size == 0 || !part.sniffs)
      ensures r.TooLarge? || r.Unsupported? ==>
        db == old(db) && bucket == old(bucket) && queue == old(queue) && details == old(details)
      ensures r.Created? <==> 0 < part.size <= 10_485_760 && part.sniffs && Persists(fate)
      ensures r.Created? ==> Stores(old(db), old(bucket), old(queue), owner, None, r.id)
      ensures fate == NO_FAULT ==> !r.CreateFailed?
    {
      ghost var i := |world.ingests|;
      Play(BeginUpload(owner, part));
      r := CreateReceipt(owner, part, None, fate, i, [part], 0);
    }

    // --- process_inbound_email ---

    /** The dedup query. */
    method FindDelivered(owner: UserId, message: MessageId, ghost i: nat, out: Outcome)
      returns (ids: Option<set<ReceiptId>>)
      requires Valid() && i < |world.ingests| && world.ingests[i].stage == Checking
      requires world.ingests[i].owner == owner && world.ingests[i].external == Some(message)
      modifies this`world, this`trace
      ensures Valid() && OnlyIngest(old(world), world, i)
      ensures ids.None? <==> out != Succeeds
      ensures ids.Some? ==> ids.value == MatchingRows(db, owner, message)
      ensures ids.Some? ==> (ids.value != {} <==> HasMessage(old(world), owner, Some(message)))
      ensures world.ingests[i] == old(world.ingests[i]).(
        stage := if ids.None? then Raised else if ids.value != {} then Finished(true) else Looping)
    {
      var found := MatchingRows(db, owner, message);
      MatchingIffHasMessage(world, owner, message);
      ids := if out == Succeeds then Some(found) else None;
      Play(RunIngest(i, out));
    }

    /** One turn of the attachment loop. */
    method IngestPart(
      owner: UserId, message: MessageId, part: Attachment, fate: CreateFate,
      ghost i: nat, ghost parts: seq<Attachment>, ghost pos: nat) returns (r: PartResult)
      requires Valid() && Ingesting(i, owner, Some(message), parts, pos) && world.ingests[i].stage == Looping
      requires pos < |parts| && parts[pos] == part
      modifies this`db, this`bucket, this`queue, this`details, this`world, this`trace
      ensures Valid() && OnlyIngest(old(world), world, i)
      ensures Ingesting(i, owner, Some(message), parts, world.ingests[i].pos)
      ensures !r.PartFailed? ==> world.ingests[i].stage == Looping && world.ingests[i].pos == pos + 1
      ensures r.PartFailed? ==> world.ingests[i].stage == Raised
      ensures r.PartSkipped? <==> Screen(true, part).Skip?
      ensures r.PartSkipped? ==>
        db == old(db) && bucket == old(bucket) && queue == old(queue) && details == old(details)
      ensures r.PartStored? <==>
        Acceptable(part) && Persists(fate) && !HasMessage(old(world), owner, Some(message))
      ensures r.PartStored? ==>
        && Acceptable(part) && Stores(old(db), old(bucket), old(queue), owner, Some(message), r.id)
        && !HasMessage(old(world), owner, Some(message))
      ensures OnlyAdds(old(db), db, owner, Some(message))
      ensures Screen(true, part).Refuse? ==> db == old(db)
      ensures r.PartFailed? && fate == NO_FAULT ==>
        && db == old(db) && bucket.blobs == old(bucket.blobs) && queue == old(queue)
        && (Screen(true, part).Refuse? || HasMessage(old(world), owner, Some(message)))
    {
      hide FieldsOk, Run, Next, HasMessage, Screen, OnlyAdds, Stores;
      AddsNothing(db, owner, Some(message));
      ScreenByEmail(part);
      if !AllowedMime(part.contentType) || !part.decodes {
        PassPart(i);
        return PartSkipped;
      }
      var receipt := CreateReceipt(owner, part, Some(message), fate, i, parts, pos);
      if receipt.Unsupported? { return PartSkipped; }
      if !receipt.Created? { return PartFailed; }
      r := PartStored(receipt.id);
    }

    method ProcessInboundEmail(
      owner: UserId, message: MessageId, parts: seq<Attachment>, query: Outcome, fate: nat -> CreateFate, ghost i: nat)
      returns (r: EmailResult)
      requires Valid() && Ingesting(i, owner, Some(message), parts, 0) && world.ingests[i].stage == Checking
      modifies this`db, this`bucket, this`queue, this`details, this`world, this`trace
      ensures Valid() && OnlyIngest(old(world), world, i)
      ensures world.ingests[i].stage == match r
        case Deduped(_) => Finished(true)
        case Ingested(_) => Finished(false)
        case EmailFailed => Raised
      // A delivery of a message that already has a receipt reports it and changes nothing.
      ensures r.Deduped? <==> query == Succeeds && HasMessage(old(world), owner, Some(message))
      ensures r.Deduped? ==>
        && r.ids == MatchingRows(old(db), owner, message)
        && db == old(db) && bucket == old(bucket) && queue == old(queue) && details == old(details)
      // Whether a first delivery completes depends on its attachments, and on the fate of the one it stores.
      ensures r.Ingested? <==>
        query == Succeeds && !HasMessage(old(world), owner, Some(message)) && GoesThrough(parts, fate)
      // A completed one stored at most one attachment, the only one it did not skip.
      ensures r.Ingested? ==> |r.created| <= 1
      ensures r.Ingested? && r.created == [] ==>
        && AllSkipped(parts, 0, |parts|)
        && db == old(db) && bucket == old(bucket) && queue == old(queue) && details == old(details)
      ensures r.Ingested? && r.created != [] ==>
        && Stores(old(db), old(bucket), old(queue), owner, Some(message), r.created[0])
        && exists k | 0 <= k < |parts| ::
             Acceptable(parts[k]) && AllSkipped(parts, 0, k) && AllSkipped(parts, k + 1, |parts|)
      // Whatever fails, no row is changed or lost, and new ones are this message's; when the first attachment
      // is refused there are none.
      ensures OnlyAdds(old(db), db, owner, Some(message))
      ensures FirstIsRefused(parts) ==> db == old(db)
      // Without faults a first delivery fails only on a refused attachment or on a second good one.
      ensures r.EmailFailed? && query == Succeeds && (forall n :: fate(n) == NO_FAULT) ==>
        || (FirstIsRefused(parts) && db == old(db) && bucket.blobs == old(bucket.blobs) && queue == old(queue))
        || (FirstIsNotAlone(parts) && StoredOnce(old(db), old(bucket), old(queue), owner, message))
    {
      hide FieldsOk, Run, Next, HasMessage, Screen, OnlyAdds, AllSkipped, FirstIsRefused, FirstIsNotAlone, GoesThrough;
      NoneSkipped(parts, 0);
      AddsNothing(db, owner, Some(message));
      var existing := FindDelivered(owner, message, i, query);
      if existing.None? { return EmailFailed; }
      if existing.value != {} { return Deduped(existing.value); }
      var created: seq<ReceiptId> := [];
      ghost var taken := 0;
      for pos := 0 to |parts|
        invariant Valid() && OnlyIngest(old(world), world, i)
        invariant Ingesting(i, owner, Some(message), parts, pos) && world.ingests[i].stage == Looping
        invariant OnlyAdds(old(db), db, owner, Some(message))
        invariant |created| <= 1
        invariant created == [] ==>
          && AllSkipped(parts, 0, pos)
          && db == old(db) && bucket == old(bucket) && queue == old(queue) && details == old(details)
        invariant created != [] ==> !FirstIsRefused(parts)
        invariant created != [] ==>
          && Stores(old(db), old(bucket), old(queue), owner, Some(message), created[0])
          && 0 <= taken < pos && Acceptable(parts[taken]) && Persists(fate(taken))
          && AllSkipped(parts, 0, taken) && AllSkipped(parts, taken + 1, pos)
      {
        ghost var before, rows := world, db;
        var receipt := IngestPart(owner, message, parts[pos], fate(pos), i, parts, pos);
        OnlyAddsTwice(old(db), rows, db, owner, Some(message));
        if receipt.PartSkipped? {
          SkippedOneMore(parts, if created == [] then 0 else taken + 1, pos);
          continue;
        }
        if receipt.PartFailed? {
          if created != [] {
            FailsAtTheSecond(parts, taken, pos, fate);
          } else {
            SameRowsSameMessages(before, old(world), owner, message);
            FailsAtTheFirst(parts, pos, fate);
            RefusedIsFirst(parts, pos);
          }
          return EmailFailed;
        }
        NoneSkipped(parts, pos + 1);
        if created == [] { GoodFirstIsNotRefused(parts, pos); }
        if created != [] { StoredMessageIsFound(before, owner, message, created[0]); }
        taken := pos;
        created := created + [receipt.id];
      }
      PassPart(i);
      CompletedGoesThrough(parts, fate, created != [], taken);
      r := Ingested(created);
    }

    ghost predicate StoredOnce(db0: Database, bucket0: Bucket, queue0: seq<Task>, owner: UserId, message: MessageId)
      reads this
    {
      Stores(db0, bucket0, queue0, owner, Some(message), db0.nextRow)
    }

    /** The webhook. */
    method DeliverEmail(
      owner: UserId, message: MessageId, parts: seq<Attachment>, query: Outcome, fate: nat -> CreateFate)
      returns (r: EmailResult)
      requires Valid()
      modifies this
      ensures Valid() && mail == old(mail) && OnlyAdds(old(db), db, owner, Some(message))
      ensures r.Deduped? <==> query == Succeeds && MatchingRows(old(db), owner, message) != {}
      ensures r.Ingested? <==>
        query == Succeeds && MatchingRows(old(db), owner, message) == {} && GoesThrough(parts, fate)
      ensures r.Deduped? ==> r.ids == MatchingRows(old(db), owner, message)
      ensures r.Deduped? || (r.Ingested? && r.created == []) ==>
        db == old(db) && bucket == old(bucket) && queue == old(queue) && details == old(details)
      ensures r.Ingested? && r.created == [] ==> AllSkipped(parts, 0, |parts|)
      ensures r.Ingested? && r.created != [] ==>
        && |r.created| == 1 && Stores(old(db), old(bucket), old(queue), owner, Some(message), r.created[0])
        && exists k | 0 <= k < |parts| ::
             Acceptable(parts[k]) && AllSkipped(parts, 0, k) && AllSkipped(parts, k + 1, |parts|)
      ensures r.EmailFailed? && query == Succeeds && (forall n :: fate(n) == NO_FAULT) ==>
        || (FirstIsRefused(parts) && db == old(db) && bucket.blobs == old(bucket.blobs) && queue == old(queue))
        || (FirstIsNotAlone(parts) && StoredOnce(old(db), old(bucket), old(queue), owner, message))
    {
      hide FieldsOk, Run, Next, HasMessage, Screen, OnlyAdds, AllSkipped, FirstIsRefused, FirstIsNotAlone, GoesThrough;
      ghost var i, before := |world.ingests|, world;
      BeginDeliveryEvent(world, owner, message, parts);
      MatchingIffHasMessage(world, owner, message);
      Play(BeginDelivery(owner, message, parts));
      SameRowsSameMessages(before, world, owner, message);
      r := ProcessInboundEmail(owner, message, parts, query, fate, i);
    }

    // --- delete_receipt ---

    method DeleteReceipt(owner: UserId, id: ReceiptId, get: Outcome, commit: Outcome, wipe: Outcome)
      returns (r: DeleteResult)
      requires Valid()
      modifies this
      ensures Valid() && mail == old(mail) && queue == old(queue)
      ensures r.DeleteNotFound? <==> get == Succeeds && !(id in old(db.rows) && old(db.rows[id]).owner == owner)
      ensures r.DeleteNotFound? ==> db == old(db) && bucket == old(bucket) && details == old(details)
      // The row is gone and its expenses are unlinked; its blob is gone when the store obliges; nothing else moves.
      ensures r.Deleted? ==>
        && id in old(db.rows) && old(db.rows[id]).owner == owner
        && db == WithoutRow(old(db), id) && details == old(details) - {id}
        && bucket.nextKey == old(bucket.nextKey)
        && bucket.blobs == if Applied(wipe) then old(bucket.blobs) - {old(db.rows[id].key)} else old(bucket.blobs)
      ensures r.DeleteFailed? ==>
        bucket == old(bucket) && (!Applied(commit) ==> db == old(db) && details == old(details))
      // Which statement fails decides the answer, and what is gone: this row alone, its own expenses' links
      // alone, its blob alone.
      ensures
        var mine := get == Succeeds && id in old(db.rows) && old(db.rows[id]).owner == owner;
        var gone := mine && Applied(commit);
        && (r.Deleted? <==> mine && commit == Succeeds)
        && db.rows == (if gone then old(db.rows) - {id} else old(db.rows))
        && details == (if gone then old(details) - {id} else old(details))
        && bucket.blobs ==
             (if r.Deleted? && Applied(wipe) then old(bucket.blobs) - {old(db.rows[id]).key} else old(bucket.blobs))
        && db.expenses.Keys == old(db.expenses).Keys
        && (forall e <- db.expenses :: db.expenses[e] ==
              if gone && old(db.expenses)[e].receipt == Some(id) then old(db.expenses)[e].(receipt := None)
              else old(db.expenses)[e])
    {
      hide FieldsOk, Run, Next;
      ghost var d := |world.deletions|;
      BeginDeletionEvent(world, owner, id);
      Play(BeginDeletion(owner, id));
      DeletionEvent(world, d, get);
      Play(RunDeletion(d, get));
      if get != Succeeds { return DeleteFailed; }
      if id !in db.rows || db.rows[id].owner != owner { return DeleteNotFound; }
      var key := db.rows[id].key;
      WithoutRowIsOk(db, bucket, details, id);
      DeletionEvent(world, d, commit);
      Play(RunDeletion(d, commit));
      if Applied(commit) {
        db := WithoutRow(db, id);
        details := details - {id};
      }
      if commit != Succeeds { return DeleteFailed; }
      FewerBlobsAreOk(db, bucket, details, key);
      DeletionEvent(world, d, wipe);
      Play(RunDeletion(d, wipe));
      if Applied(wipe) { bucket := RemoveBlob(bucket, key); }
      r := Deleted;
    }

    // --- retry_receipt ---

    method RetryReceipt(owner: UserId, id: ReceiptId, get: Outcome, commit: Outcome, enqueue: Outcome)
      returns (r: RetryResult)
      requires Valid()
      modifies this
      ensures Valid() && mail == old(mail) && bucket == old(bucket)
      ensures r.RetryNotFound? || r.NotRetryable? ==> db == old(db) && details == old(details) && queue == old(queue)
      ensures r.RetryNotFound? <==> get == Succeeds && !(id in old(db.rows) && old(db.rows[id]).owner == owner)
      ensures r.NotRetryable? <==>
        && get == Succeeds && id in old(db.rows) && old(db.rows[id]).owner == owner
        && old(db.rows[id]).status != Status.Failed
      // A failed receipt starts over: uploaded, without its error, and queued once more.
      ensures r.Retried? ==>
        && id in old(db.rows) && old(db.rows[id]).owner == owner && old(db.rows[id]).status == Status.Failed
        && db == WithStatus(old(db), id, Uploaded)
        && details == old(details)[id := old(details)[id].(error := None)]
        && queue == old(queue) + [Task(Process, id, 0, Queued)]
      // Which statement fails decides the answer, and whether the row is reset and queued.
      ensures
        var failed :=
          get == Succeeds && id in old(db.rows) && old(db.rows[id]).owner == owner
          && old(db.rows[id]).status == Status.Failed;
        && (r.Retried? <==> failed && commit == Succeeds && enqueue == Succeeds)
        && db.expenses == old(db.expenses) && details.Keys == old(details).Keys
        && db.rows ==
             (if failed && Applied(commit) then old(db.rows)[id := old(db.rows[id]).(status := Uploaded)]
              else old(db.rows))
        && (forall other <- details :: details[other] ==
              if other == id && failed && Applied(commit) then old(details)[other].(error := None)
              else old(details)[other])
        && queue ==
             (if failed && commit == Succeeds && Applied(enqueue) then old(queue) + [Task(Process, id, 0, Queued)]
              else old(queue))
    {
      hide FieldsOk, Run, Next, RowOk, WithStatus;
      ghost var k := |world.retries|;
      BeginRetryEvent(world, owner, id);
      Play(BeginRetry(owner, id));
      RetryEvent(world, k, get);
      Play(RunRetry(k, get));
      if get != Succeeds { return RetryFailed; }
      if id !in db.rows || db.rows[id].owner != owner { return RetryNotFound; }
      if db.rows[id].status != Status.Failed { return NotRetryable; }
      DetailsExist(db, bucket, details, id);
      StatusWriteIsOk(db, bucket, details, id, Uploaded, details[id].(error := None));
      RetryEvent(world, k, commit);
      Play(RunRetry(k, commit));
      if Applied(commit) {
        db := WithStatus(db, id, Uploaded);
        details := details[id := details[id].(error := None)];
      }
      if commit != Succeeds { return RetryFailed; }
      RetryEvent(world, k, enqueue);
      Play(RunRetry(k, enqueue));
      if Applied(enqueue) { queue := queue + [Task(Process, id, 0, Queued)]; }
      if enqueue != Succeeds { return RetryFailed; }
      r := Retried;
    }

    // --- process_receipt ---

    /** Between two statements of an attempt: the tables agree with the machine, whose task has come
        to `stage`; the broker still holds the task unacknowledged. */
    ghost predicate Working(i: nat, stage: TaskStage)
      reads this
    {
      && world == Run(INITIAL, trace) && i < |queue|
      && world.db == db && world.bucket == bucket && world.mail == mail
      && world.tasks == queue[i := queue[i].(stage := stage)]
      && FieldsOk(db, bucket, details) && ledger.Keys == db.expenses.Keys
    }

    /** The attempt raised: Celery requeues the task, or gives up. */
    ghost predicate GaveBack(i: nat, queue0: seq<Task>)
      reads this
    {
      Valid() && i < |queue0| && exists marked :: queue == queue0[i := Requeued(queue0[i], marked)]
    }

    /** The first query. */
    method LoadReceipt(i: nat, out: Outcome) returns (row: Option<Row>, raised: bool)
      requires Valid() && i < |queue| && queue[i].kind == Process && queue[i].stage == Queued
      modifies this`queue, this`world, this`trace
      ensures |queue| == old(|queue|)
      ensures raised <==> out != Succeeds
      ensures raised ==> GaveBack(i, old(queue))
      ensures !raised ==> (row.Some? <==> queue[i].receipt in db.rows)
      ensures !raised && row.None? ==> Valid() && queue == old(queue)[i := old(queue[i]).(stage := Done)]
      ensures !raised && row.Some? ==>
        row.value == db.rows[queue[i].receipt] && queue == old(queue) && Working(i, Loaded(row.value.status))
    {
      hide FieldsOk, Run, Next;
      TaskEvent(world, i, out);
      Play(RunTask(i, out));
      row, raised := None, false;
      if out != Succeeds {
        queue := queue[i := Requeued(queue[i], false)];
        return None, true;
      }
      if queue[i].receipt !in db.rows {
        queue := queue[i := queue[i].(stage := Done)];
      } else {
        row := Some(db.rows[queue[i].receipt]);
      }
    }

    /** receipt.status = PROCESSING; commit. */
    method MarkProcessing(i: nat, snap: Status, out: Outcome) returns (raised: bool)
      requires Working(i, Loaded(snap)) && queue[i].kind == Process
      requires queue[i].receipt in db.rows && db.rows[queue[i].receipt].status == snap
      modifies this`db, this`queue, this`world, this`trace
      ensures raised <==> out != Succeeds
      ensures raised ==> GaveBack(i, old(queue))
      ensures !raised ==> Working(i, Marked) && queue == old(queue)
      ensures db == if Applied(out) then WithStatus(old(db), queue[i].receipt, Status.Processing) else old(db)
      ensures OnlyStatusOf(old(queue[i]).receipt, old(db), old(details), db, details)
    {
      hide FieldsOk, Run, Next, OnlyStatusOf;
      var id := queue[i].receipt;
      DetailsExist(db, bucket, details, id);
      StatusWriteIsOk(db, bucket, details, id, Status.Processing, details[id]);
      SameDetails(details, id);
      SameStatus(db, id);
      StatusUntouched(id, db, details);
      StatusWritten(id, db, details, Status.Processing, details[id]);
      TaskEvent(world, i, out);
      Play(RunTask(i, out));
      if Applied(out) { db := WithStatus(db, id, Status.Processing); }
      raised := out != Succeeds;
      if raised { queue := queue[i := Requeued(queue[i], false)]; }
    }

    /** The commit of what was parsed. */
    method CommitParsed(i: nat, payload: StoredPayload, ocrMethod: OcrMethod, out: Outcome) returns (ok: bool)
      requires Working(i, Committing) && queue[i].kind == Process && queue[i].receipt in db.rows
      modifies this`db, this`details, this`world, this`trace
      ensures ok <==> out == Succeeds
      ensures Working(i, if ok then Handoff else Marker(true))
      ensures db == if Applied(out) then WithStatus(old(db), queue[i].receipt, Status.Parsed) else old(db)
      ensures details ==
        if Applied(out)
        then old(details)[queue[i].receipt := Details(None, Some(payload), Some(ocrMethod))]
        else old(details)
      ensures OnlyStatusOf(old(queue[i]).receipt, old(db), old(details), db, details)
    {
      hide FieldsOk, Run, Next, OnlyStatusOf;
      var id := queue[i].receipt;
      DetailsExist(db, bucket, details, id);
      StatusWriteIsOk(db, bucket, details, id, Status.Parsed, Details(None, Some(payload), Some(ocrMethod)));
      StatusUntouched(id, db, details);
      StatusWritten(id, db, details, Status.Parsed, Details(None, Some(payload), Some(ocrMethod)));
      TaskEvent(world, i, out);
      Play(RunTask(i, out));
      if Applied(out) {
        db := WithStatus(db, id, Status.Parsed);
        details := details[id := Details(None, Some(payload), Some(ocrMethod))];
      }
      ok := out == Succeeds;
    }

    method EnqueueCategorisation(i: nat, out: Outcome) returns (ok: bool)
      requires Working(i, Handoff) && queue[i].kind == Process
      modifies this`queue, this`world, this`trace
      ensures ok <==> out == Succeeds
      ensures ok ==>
        && Valid()
        && queue == old(queue)[i := old(queue[i]).(stage := Done)]
             + [Task(Categorise, old(queue[i]).receipt, 0, Queued)]
      ensures !ok ==>
        && Working(i, Marker(true))
        && queue ==
             if Applied(out) then old(queue) + [Task(Categorise, old(queue[i]).receipt, 0, Queued)] else old(queue)
    {
      hide FieldsOk, Run, Next;
      TaskEvent(world, i, out);
      Play(RunTask(i, out));
      ghost var before := queue;
      if Applied(out) { queue := queue + [Task(Categorise, queue[i].receipt, 0, Queued)]; }
      ok := out == Succeeds;
      if ok { queue := queue[i := queue[i].(stage := Done)]; }
    }

    /** The failure marker, and the exception that follows it unless the failure is a domain error. */
    method MarkFailed(i: nat, again: bool, message: string, out: Outcome) returns (raised: bool)
      requires Working(i, Marker(again)) && queue[i].kind == Process && queue[i].receipt in db.rows
      modifies this`db, this`details, this`queue, this`world, this`trace
      ensures raised <==> again || out != Succeeds
      ensures Valid() && |queue| == old(|queue|)
      ensures forall j | 0 <= j < |queue| && j != i :: queue[j] == old(queue[j])
      ensures raised ==> GaveBack(i, old(queue))
      ensures !raised ==> Valid() && queue == old(queue)[i := old(queue[i]).(stage := Done)]
      ensures db == if Applied(out) then WithStatus(old(db), old(queue[i]).receipt, Status.Failed) else old(db)
      ensures details.Keys == old(details.Keys)
      ensures Applied(out) ==>
        details == old(details)[old(queue[i]).receipt :=
          old(details)[old(queue[i]).receipt].(error := Some(Truncated(message)))]
      ensures !Applied(out) ==> details == old(details)
      ensures OnlyStatusOf(old(queue[i]).receipt, old(db), old(details), db, details)
    {
      hide FieldsOk, Run, Next, OnlyStatusOf;
      var id := queue[i].receipt;
      DetailsExist(db, bucket, details, id);
      StatusWriteIsOk(db, bucket, details, id, Status.Failed, details[id].(error := Some(Truncated(message))));
      StatusUntouched(id, db, details);
      StatusWritten(id, db, details, Status.Failed, details[id].(error := Some(Truncated(message))));
      TaskEvent(world, i, out);
      Play(RunTask(i, out));
      raised := again || out != Succeeds;
      if Applied(out) {
        db := WithStatus(db, id, Status.Failed);
        details := details[id := details[id].(error := Some(Truncated(message)))];
      }
      queue := queue[i := if raised then Requeued(queue[i], Applied(out)) else queue[i].(stage := Done)];
    }

    /** One attempt of the processing task. `reading` is what the OCR step said, if it ran. */
    method ProcessReceipt(i: nat, fate: ProcessFate, inputs: OcrInputs)
      returns (raised: bool, reading: Option<OcrResult>)
      requires Valid() && i < |queue| && queue[i].kind == Process && queue[i].stage == Queued && Sound(inputs)
      modifies this`db, this`details, this`queue, this`world, this`trace
      ensures Valid() && mail == old(mail) && bucket == old(bucket) && ledger == old(ledger)
      ensures reading.Some? ==> OcrSays(inputs, reading.value)
      // Whatever fails, no other receipt and no expense is touched.
      ensures OnlyStatusOf(old(queue[i]).receipt, old(db), old(details), db, details)
      // A row deleted in the meantime is no error.
      ensures fate.load == Succeeds && old(queue[i]).receipt !in old(db.rows) ==>
        !raised && db == old(db) && details == old(details) && queue == old(queue)[i := old(queue[i]).(stage := Done)]
      // Which statement fails decides whether the attempt raises, the status, and whether it is handed on.
      ensures
        var id, rows := old(queue[i]).receipt, old(db.rows);
        var read := fate.load == Succeeds && id in rows;
        var marked := read && fate.mark == Succeeds;
        && (reading.Some? <==> marked)
        && var extracted := marked && reading.value.Extracted?;
           var parsed, handed :=
             extracted && Applied(fate.commit), extracted && fate.commit == Succeeds && Applied(fate.handoff);
           var failing := marked && !(extracted && fate.commit == Succeeds && fate.handoff == Succeeds);
           && (raised <==>
                || fate.load != Succeeds || (read && fate.mark != Succeeds)
                || (failing && !(reading.value.PipelineError? && fate.marker == Succeeds)))
           && db == (if failing && Applied(fate.marker) then WithStatus(old(db), id, Status.Failed)
                     else if parsed then WithStatus(old(db), id, Status.Parsed)
                     else if read && Applied(fate.mark) then WithStatus(old(db), id, Status.Processing)
                     else old(db))
           && |queue| == old(|queue|) + (if handed then 1 else 0)
           && (handed ==> queue[old(|queue|)] == Task(Categorise, id, 0, Queued))
      // Without faults the row ends parsed and handed on, or failed; it raises only on a transient failure.
      ensures ProcessClean(fate) && old(queue[i]).receipt in old(db.rows) ==>
        && reading.Some?
        && var id, d := old(queue[i]).receipt, old(details);
           id in d && match reading.value
           case Extracted(payload, ocrMethod) =>
             && !raised && db == WithStatus(old(db), id, Status.Parsed)
             && details == d[id := Details(None, Some(payload), Some(ocrMethod))]
             && queue == old(queue)[i := old(queue[i]).(stage := Done)] + [Task(Categorise, id, 0, Queued)]
           case PipelineError(message) =>
             && !raised && db == WithStatus(old(db), id, Status.Failed)
             && details == d[id := d[id].(error := Some(Truncated(message)))]
             && queue == old(queue)[i := old(queue[i]).(stage := Done)]
           case Crashed(message) =>
             && raised && db == WithStatus(old(db), id, Status.Failed)
             && details == d[id := d[id].(error := Some(Truncated(message)))]
             && GaveBack(i, old(queue))
    {
      hide Working, FieldsOk, Run, Next, OcrSays, OnlyStatusOf, Sound, Truncated;
      var id := queue[i].receipt;
      ghost var db0, details0 := db, details;
      StatusUntouched(id, db, details);
      var row;
      reading := None;
      row, raised := LoadReceipt(i, fate.load);
      if raised || row.None? { return; }
      DetailsExist(db, bucket, details, id);
      raised := MarkProcessing(i, row.value.status, fate.mark);
      if raised { return; }
      SecondStatusWins(db0, id);
      ghost var db1, details1 := db, details;
      var result := OcrAndParse(inputs);
      reading := Some(result);
      OcrDone(i, result);
      match result
      case Extracted(payload, ocrMethod) =>
        raised := StoreExtracted(i, payload, ocrMethod, fate);
        OnlyStatusTwice(id, db0, details0, db1, details1, db, details);
      case PipelineError(message) =>
        raised := MarkFailed(i, false, message, fate.marker);
        OnlyStatusTwice(id, db0, details0, db1, details1, db, details);
      case Crashed(message) =>
        raised := MarkFailed(i, true, message, fate.marker);
        OnlyStatusTwice(id, db0, details0, db1, details1, db, details);
    }

    /** What was read is committed and handed on, or the failure is marked. */
    method StoreExtracted(i: nat, payload: StoredPayload, ocrMethod: OcrMethod, fate: ProcessFate)
      returns (raised: bool)
      requires i < |queue| && Working(i, Committing) && queue[i].kind == Process && queue[i].receipt in db.rows
      modifies this`db, this`details, this`queue, this`world, this`trace
      ensures Valid() && OnlyStatusOf(old(queue[i]).receipt, old(db), old(details), db, details)
      ensures raised <==> fate.commit != Succeeds || fate.handoff != Succeeds
      ensures
        db == (if raised && Applied(fate.marker) then WithStatus(old(db), old(queue[i]).receipt, Status.Failed)
               else if Applied(fate.commit) then WithStatus(old(db), old(queue[i]).receipt, Status.Parsed)
               else old(db))
      ensures
        var handed := fate.commit == Succeeds && Applied(fate.handoff);
        && |queue| == old(|queue|) + (if handed then 1 else 0)
        && (handed ==> queue[old(|queue|)] == Task(Categorise, old(queue[i]).receipt, 0, Queued))
      ensures !raised ==>
        && details == old(details)[old(queue[i]).receipt := Details(None, Some(payload), Some(ocrMethod))]
        && queue == old(queue)[i := old(queue[i]).(stage := Done)]
                    + [Task(Categorise, old(queue[i]).receipt, 0, Queued)]
    {
      hide Working, Valid, GaveBack, FieldsOk, Run, Next, OnlyStatusOf, Truncated, WithStatus;
      var id := queue[i].receipt;
      ghost var db0, details0 := db, details;
      SecondStatusWins(db0, id);
      var ok := CommitParsed(i, payload, ocrMethod, fate.commit);
      if ok {
        ok := EnqueueCategorisation(i, fate.handoff);
        if ok { return false; }
      }
      ghost var db1, details1 := db, details;
      raised := MarkFailed(i, true, "commit or enqueue failed", fate.marker);
      OnlyStatusTwice(id, db0, details0, db1, details1, db, details);
    }

    ghost method OcrDone(i: nat, result: OcrResult)
      requires Working(i, Marked) && queue[i].kind == Process
      modifies this`world, this`trace
      ensures Working(i, AfterReading(result))
    {
      hide FieldsOk, Run, Next;
      var out := if result.Extracted? then Succeeds else if result.PipelineError? then Rejects else Fails;
      TaskEvent(world, i, out);
      Play(RunTask(i, out));
    }

    // --- categorise_receipt ---

    method LoadForCategorising(i: nat, out: Outcome) returns (row: Option<Row>, raised: bool)
      requires Valid() && i < |queue| && queue[i].kind == Categorise && queue[i].stage == Queued
      modifies this`queue, this`world, this`trace
      ensures |queue| == old(|queue|)
      ensures raised <==> out != Succeeds
      ensures raised ==> GaveBack(i, old(queue))
      ensures !raised ==> (row.Some? <==> queue[i].receipt in db.rows)
      ensures !raised && row.None? ==> Valid() && queue == old(queue)[i := old(queue[i]).(stage := Done)]
      ensures !raised && row.Some? ==>
        row.value == db.rows[queue[i].receipt] && queue == old(queue)
          && Working(i, Read(row.value.status, row.value.owner))
    {
      hide FieldsOk, Run, Next;
      TaskEvent(world, i, out);
      Play(RunTask(i, out));
      row, raised := None, false;
      if out != Succeeds {
        queue := queue[i := Requeued(queue[i], false)];
        return None, true;
      }
      if queue[i].receipt !in db.rows {
        queue := queue[i := queue[i].(stage := Done)];
      } else {
        row := Some(db.rows[queue[i].receipt]);
      }
    }

    /** Both guards. None: the attempt is over, raising or not; otherwise, is there an expense? */
    method FindExpense(i: nat, snap: Status, owner: UserId, out: Outcome) returns (existing: Option<bool>, raised: bool)
      requires Working(i, Read(snap, owner)) && queue[i].kind == Categorise
      modifies this`queue, this`world, this`trace
      ensures |queue| == old(|queue|)
      ensures raised <==> out != Succeeds
      ensures raised ==> existing.None? && GaveBack(i, old(queue))
      ensures !raised ==> (existing.Some? <==>
        if HasExpense(db, old(queue[i]).receipt) then snap != Status.Categorised else snap == Status.Parsed)
      ensures existing.Some? ==>
        && existing.value == HasExpense(db, queue[i].receipt) && queue == old(queue)
        && Working(i, if existing.value then Fixing else Ready(owner))
      ensures !raised && existing.None? ==> Valid() && queue == old(queue)[i := old(queue[i]).(stage := Done)]
    {
      hide FieldsOk, Run, Next, HasExpense;
      TaskEvent(world, i, out);
      Play(RunTask(i, out));
      if out != Succeeds {
        queue := queue[i := Requeued(queue[i], false)];
        return None, true;
      }
      var found := HasExpense(db, queue[i].receipt);
      raised := false;
      if (found && snap == Status.Categorised) || (!found && snap != Status.Parsed) {
        queue := queue[i := queue[i].(stage := Done)];
        existing := None;
      } else {
        existing := Some(found);
      }
    }

    /** Guard one found an expense under another status: set it right. */
    method FixStatus(i: nat, out: Outcome) returns (raised: bool)
      requires Working(i, Fixing) && queue[i].kind == Categorise
      requires queue[i].receipt in db.rows && HasExpense(db, queue[i].receipt)
      modifies this`db, this`queue, this`world, this`trace
      ensures raised <==> out != Succeeds
      ensures raised ==> GaveBack(i, old(queue))
      ensures !raised ==> Valid() && queue == old(queue)[i := old(queue[i]).(stage := Done)]
      ensures db == if Applied(out) then WithStatus(old(db), old(queue[i]).receipt, Status.Categorised) else old(db)
    {
      hide FieldsOk, Run, Next, HasExpense;
      var id := queue[i].receipt;
      ExpensePaid(db, bucket, details, id);
      StatusWriteIsOk(db, bucket, details, id, Status.Categorised, details[id]);
      SameDetails(details, id);
      TaskEvent(world, i, out);
      Play(RunTask(i, out));
      if Applied(out) { db := WithStatus(db, id, Status.Categorised); }
      raised := out != Succeeds;
      queue := queue[i := if raised then Requeued(queue[i], false) else queue[i].(stage := Done)];
    }

    /** INSERT the expense and set the status in one transaction. A value wider than its column makes the
        insert fail, whatever the fate of the commit. */
    method CommitExpense(i: nat, owner: UserId, spending: Spending, out: Outcome) returns (raised: bool)
      requires Working(i, Ready(owner)) && queue[i].kind == Categorise
      requires queue[i].receipt in db.rows && !HasExpense(db, queue[i].receipt)
      requires queue[i].receipt in details && details[queue[i].receipt].payload.Some?
      modifies this`db, this`ledger, this`queue, this`world, this`trace
      ensures raised <==> out != Succeeds || !FitsColumns(spending)
      ensures raised ==> GaveBack(i, old(queue))
      ensures !raised ==> Valid() && queue == old(queue)[i := old(queue[i]).(stage := Done)]
      ensures (db, ledger) ==
        if Applied(out) && FitsColumns(spending)
        then (WithExpense(old(db), old(queue[i]).receipt, owner), old(ledger)[old(db.nextExpense) := spending])
        else old((db, ledger))
    {
      hide FieldsOk, Run, Next, HasExpense, FitsColumns, WithExpense;
      var id := queue[i].receipt;
      NewExpenseIsOk(db, bucket, details, owner, id);
      var end := if FitsColumns(spending) then out else Fails;
      InsertEvent(world, i, owner, end);
      Play(RunTask(i, end));
      if Applied(end) {
        ledger := ledger[db.nextExpense := spending];
        db := WithExpense(db, id, owner);
      }
      raised := end != Succeeds;
      queue := queue[i := if raised then Requeued(queue[i], false) else queue[i].(stage := Done)];
    }

    /** What the payload and the priority chain make of a receipt. */
    function SpendingOf(
      id: ReceiptId, today: Calendar.Date, corrections: ExpenseStore.Learned,
      lookupRule: string -> Option<Category>, hasKey: bool, classifier: Option<Category>): Spending
      reads this
      requires id in db.rows && id in details
    {
      var (merchant, amount, date) := CoercePayload(details[id].payload, today);
      var category := ExpenseStore.CategoriseMerchant(
        corrections, db.rows[id].owner, Some(merchant), lookupRule, hasKey, classifier);
      Spending(merchant, amount, date, category)
    }

    /** One attempt of the categorising task. */
    method CategoriseReceipt(
      i: nat, fate: CategoriseFate, today: Calendar.Date, corrections: ExpenseStore.Learned,
      lookupRule: string -> Option<Category>, hasKey: bool, classifier: Option<Category>) returns (raised: bool)
      requires Valid() && i < |queue| && queue[i].kind == Categorise && queue[i].stage == Queued
      modifies this
      ensures Valid() && mail == old(mail) && bucket == old(bucket) && details == old(details)
      ensures !raised ==> queue == old(queue)[i := old(queue[i]).(stage := Done)]
      ensures raised ==> GaveBack(i, old(queue))
      // Whatever fails: nothing, the status alone, or the expense with its status.
      ensures
        var id := old(queue[i]).receipt;
        || db == old(db)
        || (id in old(db.rows) && db == WithStatus(old(db), id, Status.Categorised))
        || (id in old(db.rows) && !HasExpense(old(db), id) && db == WithExpense(old(db), id, old(db.rows)[id].owner))
      // An attempt that meets no fault: a receipt that has its expense keeps it and is set right; a
      // parsed one without gets the one its payload describes if that fits the columns, and otherwise
      // the attempt raises and writes nothing; any other is left alone.
      ensures CategoriseClean(fate) ==>
        var id, rows := old(queue[i]).receipt, old(db.rows);
        if id !in rows then !raised && db == old(db) && ledger == old(ledger)
        else if HasExpense(old(db), id) then
          !raised && db == WithStatus(old(db), id, Status.Categorised) && ledger == old(ledger)
        else if rows[id].status != Status.Parsed then !raised && db == old(db) && ledger == old(ledger)
        else
          && id in old(details)
          && var spending := old(SpendingOf(id, today, corrections, lookupRule, hasKey, classifier));
             if FitsColumns(spending) then
               && !raised && db == WithExpense(old(db), id, rows[id].owner)
               && ledger == old(ledger)[old(db.nextExpense) := spending]
             else raised && db == old(db) && ledger == old(ledger)
      // Which statement fails decides whether the attempt raises and what is written.
      ensures
        var id, rows := old(queue[i]).receipt, old(db.rows);
        var spent := HasExpense(old(db), id);
        var seen := fate.load == Succeeds && id in rows && fate.find == Succeeds;
        var fixes := seen && spent && rows[id].status != Status.Categorised;
        var spends := seen && !spent && rows[id].status == Status.Parsed;
        && (spends ==> id in old(details))
        && var spending :=
             if spends then Some(old(SpendingOf(id, today, corrections, lookupRule, hasKey, classifier))) else None;
           var fits := spends && |spending.value.merchant| <= 255 && spending.value.amount < 1_000_000_000_000;
           && (raised <==>
                || fate.load != Succeeds || (id in rows && fate.find != Succeeds)
                || (fixes && fate.fix != Succeeds) || (spends && !(fits && fate.commit == Succeeds)))
           && db == (if fixes && Applied(fate.fix) then WithStatus(old(db), id, Status.Categorised)
                     else if fits && Applied(fate.commit) then WithExpense(old(db), id, rows[id].owner)
                     else old(db))
           && ledger == (if fits && Applied(fate.commit) then old(ledger)[old(db.nextExpense) := spending.value]
                         else old(ledger))
      // A new expense carries what the payload says, and the category of the first of these that speaks: the
      // correction, the rule, the classifier if there is a key.
      ensures
        var id, e := old(queue[i]).receipt, old(db.nextExpense);
        e in ledger && ledger != old(ledger) && id in old(db.rows) && id in old(details) ==>
          var s, key := ledger[e], (old(db.rows)[id].owner, ExpenseStore.Normalise(ledger[e].merchant));
          && (s.merchant, s.amount, s.date) == CoercePayload(old(details)[id].payload, today)
          && (key in corrections ==> s.category == corrections[key].category)
          && (key !in corrections && lookupRule(key.1).Some? ==> s.category == lookupRule(key.1).value)
          && (key !in corrections && lookupRule(key.1).None? ==>
                s.category == if hasKey && classifier.Some? then classifier.value else Other)
      // A receipt set right beside its expense keeps its error column: it has one exactly if it had, which
      // is always so from failed and never from uploaded or parsed.
      ensures
        && CategoriseClean(fate)
        && old(queue[i]).receipt in old(db.rows) && HasExpense(old(db), old(queue[i]).receipt) ==>
        var id, before := old(queue[i]).receipt, old(db.rows)[old(queue[i]).receipt].status;
        && id in db.rows && db.rows[id].status == Status.Categorised && id in details && id in old(details)
        && (details[id].error.Some? <==>
              before == Status.Failed
              || (before in {Status.Processing, Status.Categorised} && old(details)[id].error.Some?))
    {
      hide FieldsOk, Run, Next, HasExpense, CoercePayload, ExpenseStore.CategoriseMerchant, FitsColumns,
        ExpenseStore.Normalise;
      var id := queue[i].receipt;
      if id in db.rows { ErrorByStatus(db, bucket, details, id); }
      var row, existing;
      row, raised := LoadForCategorising(i, fate.load);
      if raised || row.None? { return; }
      DetailsExist(db, bucket, details, id);
      SameStatus(db, id);
      existing, raised := FindExpense(i, row.value.status, row.value.owner, fate.find);
      if existing.None? { return; }
      if existing.value {
        raised := FixStatus(i, fate.fix);
        return;
      }
      var (merchant, amount, date) := CoercePayload(details[id].payload, today);
      ColumnsAre();
      SpendingSpeaks(details[id].payload, today, corrections, row.value.owner, lookupRule, hasKey, classifier);
      var category := ExpenseStore.CategoriseMerchant(
        corrections, row.value.owner, Some(merchant), lookupRule, hasKey, classifier);
      raised := CommitExpense(i, row.value.owner, Spending(merchant, amount, date, category), fate.commit);
    }

    /** The broker delivers a task once more. */
    method Redeliver(i: nat)
      requires Valid() && i < |queue|
      modifies this`queue, this`world, this`trace
      ensures Valid() && queue == old(queue) + [old(queue[i]).(stage := Queued)]
    {
      queue := queue + [queue[i].(stage := Queued)];
      Play(TaskDuplicated(i));
    }

    // --- sync_connection ---

    ghost predicate Syncing(y: nat, c: nat, push: HistoryId)
      reads this
    {
      y < |world.syncs| && c < |world.mail.connections| && world.syncs[y].connection == c && world.syncs[y].push == push
    }

    ghost predicate AtMessage(
      y: nat, c: nat, push: HistoryId, from: HistoryId, todo: seq<MessageId>, pos: nat, reseed: bool)
      reads this
    {
      Syncing(y, c, push) && world.syncs[y].stage == Walking(from, todo, pos, reseed)
    }

    /** One listed message: fetched, flattened, handed to the inbound-email service. None is an error. */
    method SyncMessage(
      c: nat, message: MessageId, fetch: Outcome, query: Outcome, create: nat -> CreateFate,
      ghost y: nat, ghost push: HistoryId, ghost from: HistoryId, ghost todo: seq<MessageId>, ghost pos: nat,
      ghost reseed: bool) returns (count: Option<nat>)
      requires Valid() && AtMessage(y, c, push, from, todo, pos, reseed) && pos < |todo| && todo[pos] == message
      modifies this`db, this`bucket, this`queue, this`details, this`world, this`trace
      ensures Valid() && Syncing(y, c, push) && mail == old(mail)
      ensures RowsKept(old(db), db) && OnlyAdds(old(db), db, mail.connections[c].owner, Some(message))
      ensures message in mail.contents && FirstIsRefused(Attachments(mail.contents[message])) ==> db == old(db)
      ensures count.Some? <==>
        MessagePasses(old(db), mail, mail.connections[c].owner, message, fetch, query, create)
      // It counts a receipt exactly when there was none and something is attached that is not skipped.
      ensures count.Some? ==>
        var parts := Attachments(mail.contents[message]);
        count.value ==
          if Delivered(old(db), mail.connections[c].owner, message) || AllSkipped(parts, 0, |parts|) then 0 else 1
      ensures count.Some? ==>
        && AtMessage(y, c, push, from, todo, pos + 1, reseed)
        && Settled(db, mail, mail.connections[c].owner, message)
        && |db.rows| == |old(db.rows)| + count.value
        && (forall m | Settled(old(db), mail, mail.connections[c].owner, m) ::
              Settled(db, mail, mail.connections[c].owner, m))
    {
      hide FieldsOk, Run, Next, Settled, Attachments, AllSkipped, Acceptable, OnlyAdds, RowsKept, GoesThrough,
        FirstIsRefused;
      KeepsItsRows(db);
      var owner := mail.connections[c].owner;
      AddsNothing(db, owner, Some(message));
      SyncFetchesEvent(world, y, from, todo, pos, reseed, fetch, TooOld);
      Play(RunSync(y, fetch, TooOld));
      if fetch != Succeeds || message !in mail.contents { return None; }
      var parts := Attachments(mail.contents[message]);
      if parts == [] {
        NothingToSkip(parts);
        SkippedIsSettled(db, mail, owner, message, parts);
        return Some(0);
      }
      ghost var delivery := |world.ingests| - 1;
      ghost var before := world;
      MatchingIffHasMessage(before, owner, message);
      var result := ProcessInboundEmail(owner, message, parts, query, create, delivery);
      AddingKeepsRows(old(db), before.db, db, owner, Some(message));
      SyncResumesEvent(world, y, from, todo, pos, reseed, delivery, TooOld);
      match result
      case EmailFailed => return None;
      case Deduped(_) =>
        Play(RunSync(y, Succeeds, TooOld));
        DeliveredIsSettled(db, mail, owner, message);
        count := Some(0);
      case Ingested(created) =>
        Play(RunSync(y, Succeeds, TooOld));
        if created == [] {
          SkippedIsSettled(db, mail, owner, message, parts);
        } else {
          GoodIsNotSkipped(parts);
          var row := Row(owner, old(bucket.nextKey), Some(message), Uploaded);
          NextRowIsNew(old(db), old(bucket), old(details), row);
          AddRowSettles(old(db), mail, row, message);
          forall m | Settled(old(db), mail, owner, m) ensures Settled(db, mail, owner, m) {
            AddRowKeepsSettled(old(db), mail, row, owner, m);
          }
        }
        count := Some(|created|);
    }

    method SyncMessages(
      c: nat, ids: seq<MessageId>, fate: SyncFate,
      ghost y: nat, ghost push: HistoryId, ghost from: HistoryId, ghost reseed: bool) returns (created: Option<nat>)
      requires Valid() && AtMessage(y, c, push, from, ids, 0, reseed)
      requires forall j, k | 0 <= j < k < |ids| :: ids[j] != ids[k]
      modifies this`db, this`bucket, this`queue, this`details, this`world, this`trace
      ensures Valid() && Syncing(y, c, push) && mail == old(mail)
      ensures RowsKept(old(db), db)
      ensures created.Some? <==> AllPass(old(db), mail, mail.connections[c].owner, ids, fate)
      ensures forall m | Poison(old(db), mail, mail.connections[c].owner, m) ::
        Poison(db, mail, mail.connections[c].owner, m)
      ensures created.Some? ==>
        && AtMessage(y, c, push, from, ids, |ids|, reseed)
        && |db.rows| == |old(db.rows)| + created.value
        && forall j | 0 <= j < |ids| :: Settled(db, mail, mail.connections[c].owner, ids[j])
    {
      hide FieldsOk, Run, Next, Settled, RowsKept, OnlyAdds, MessagePasses, MatchingRows, Poison, FirstIsRefused,
        Attachments;
      KeepsItsRows(db);
      ghost var owner := mail.connections[c].owner;
      var receiptsCreated := 0;
      for k := 0 to |ids|
        invariant Valid() && AtMessage(y, c, push, from, ids, k, reseed) && mail == old(mail)
        invariant RowsKept(old(db), db)
        invariant forall m | Poison(old(db), mail, owner, m) :: Poison(db, mail, owner, m)
        invariant |db.rows| == |old(db.rows)| + receiptsCreated
        invariant forall j | 0 <= j < k :: Settled(db, mail, mail.connections[c].owner, ids[j])
        invariant forall j: nat | j < k ::
          MessagePasses(old(db), mail, owner, ids[j], fate.fetch(j), fate.query(j), fate.create(j))
        invariant forall j | k <= j < |ids| :: MatchingRows(db, owner, ids[j]) == MatchingRows(old(db), owner, ids[j])
      {
        ghost var before := db;
        SameRowsSamePass(old(db), db, mail, owner, ids[k], fate.fetch(k), fate.query(k), fate.create(k));
        var count := SyncMessage(
          c, ids[k], fate.fetch(k), fate.query(k), fate.create(k), y, push, from, ids, k, reseed);
        RowsKeptTwice(old(db), before, db);
        PoisonStays(before, db, mail, owner, ids[k]);
        if count.None? { return None; }
        forall j | k < j < |ids| ensures MatchingRows(db, owner, ids[j]) == MatchingRows(old(db), owner, ids[j]) {
          OthersAsBefore(before, db, owner, ids[k], ids[j]);
        }
        receiptsCreated := receiptsCreated + count.value;
      }
      created := Some(receiptsCreated);
    }

    /** Everything before the messages: the cursor is read, and set if it never was; the token is
        refreshed and the history walked. */
    method OpenSync(c: nat, push: HistoryId, fate: SyncFate, walk: HistoryWalk, ghost y: nat) returns (r: OpenResult)
      requires Valid() && Syncing(y, c, push) && world.syncs[y].stage.Pending?
      requires walk.end.Complete? && mail.connections[c].cursor.Some? ==>
        CoversHistory(world, mail.connections[c].cursor.value, mail.head, walk.pages)
      modifies this`mail, this`world, this`trace
      ensures Valid() && |mail.connections| == |old(mail).connections|
      ensures r.Seeded? <==>
        fate.open == Succeeds && old(mail).connections[c].cursor.None? && fate.seed == Succeeds
      ensures r.Opened? <==>
        && fate.open == Succeeds && old(mail).connections[c].cursor.Some? && fate.refresh == Succeeds
        && !walk.end.Broken?
      ensures r.Seeded? ==>
        fate.seed == Succeeds && old(mail).connections[c].cursor.None? && mail == MovedCursor(old(mail), c, push, true)
      ensures old(mail).connections[c].cursor.Some? ==> mail == old(mail)
      ensures r.NotOpened? ==>
        mail == old(mail) || (Applied(fate.seed) && mail == MovedCursor(old(mail), c, push, true))
      ensures r.Opened? ==>
        && mail == old(mail) && mail.connections[c].cursor.Some? && !walk.end.Broken?
        && r.ids == (if walk.end.Gone? then [] else Distinct(Concat(walk.pages)))
        && AtMessage(y, c, push, mail.connections[c].cursor.value, r.ids, 0, walk.end.Gone?)
    {
      hide FieldsOk, Run, Next, Distinct, Concat, CoversHistory;
      SyncOpensEvent(world, y, fate.open, TooOld);
      Play(RunSync(y, fate.open, TooOld));
      if fate.open != Succeeds { return NotOpened; }
      var cursor := mail.connections[c].cursor;
      if cursor.None? {
        SyncOpensEvent(world, y, fate.seed, TooOld);
        Play(RunSync(y, fate.seed, TooOld));
        if Applied(fate.seed) { mail := MovedCursor(mail, c, push, true); }
        if fate.seed != Succeeds { return NotOpened; }
        return Seeded;
      }
      SyncOpensEvent(world, y, fate.refresh, TooOld);
      Play(RunSync(y, fate.refresh, TooOld));
      if fate.refresh != Succeeds { return NotOpened; }
      SameLogSameCover(old(world), world, cursor.value, mail.head, walk.pages);
      SyncListsEvent(world, y, cursor.value, mail.head, walk);
      Play(ListEventOf(y, walk));
      var listed := ListAddedMessageIds(walk);
      if listed.None? { return NotOpened; }
      r := OpenResult.Opened(listed.value);
    }

    method SyncConnection(c: nat, push: HistoryId, fate: SyncFate, walk: HistoryWalk, ghost y: nat)
      returns (r: SyncResult)
      requires Valid() && Syncing(y, c, push) && world.syncs[y].stage.Pending?
      // The provider's promise: a complete walk names every message added since the cursor.
      requires walk.end.Complete? && mail.connections[c].cursor.Some? ==>
        CoversHistory(world, mail.connections[c].cursor.value, mail.head, walk.pages)
      modifies this
      ensures Valid() && ledger == old(ledger) && RowsKept(old(db), db)
      ensures r.Completed? <==> SyncCompletes(old(db), old(mail), c, fate, walk)
      // A sync that cannot get every listed message through leaves the cursor, and the messages that no sync can
      // import stay that way.
      ensures
        && old(mail).connections[c].cursor.Some? && walk.end.Complete?
        && !AllPass(old(db), old(mail), old(mail).connections[c].owner, Distinct(Concat(walk.pages)), fate) ==>
          mail == old(mail)
      ensures forall m | Poison(old(db), old(mail), old(mail).connections[c].owner, m) ::
        Poison(db, old(mail), old(mail).connections[c].owner, m)
      ensures mail == old(mail) || mail == MovedCursor(old(mail), c, push, true)
        || mail == MovedCursor(old(mail), c, push, false)
      ensures !Applied(fate.seed) && !Applied(fate.close) ==> mail == old(mail)
      ensures r.Completed? ==>
        && |mail.connections| == |old(mail).connections| && mail.connections[c].cursor == Some(push)
        && |db.rows| == |old(db.rows)| + r.receiptsCreated
      // The first push only sets the cursor.
      ensures r.Completed? && old(mail).connections[c].cursor.None? ==>
        r == Completed(0, 0) && db == old(db) && bucket == old(bucket) && queue == old(queue)
      // The cursor moves only after every message of the walk is dealt with.
      ensures r.Completed? && old(mail).connections[c].cursor.Some? ==>
        r.messagesSeen == if walk.end.Gone? then 0 else |Distinct(Concat(walk.pages))|
      ensures r.Completed? && old(mail).connections[c].cursor.Some? && walk.end.Complete? ==>
        forall k | 0 <= k < |Distinct(Concat(walk.pages))| ::
             Settled(db, mail, mail.connections[c].owner, Distinct(Concat(walk.pages))[k])
    {
      hide FieldsOk, Run, Next, Settled, Distinct, Concat, CoversHistory, RowsKept, AllPass, Poison,
        MovedCursor;
      KeepsItsRows(db);
      Coverage.DistinctKeepsAll(Concat(walk.pages));
      var start := OpenSync(c, push, fate, walk, y);
      if start.NotOpened? { return SyncFailed; }
      if start.Seeded? { return Completed(0, 0); }
      var ids := start.ids;
      if walk.end.Gone? { NothingToPass(db, mail, mail.connections[c].owner, fate); }
      var cursor := mail.connections[c].cursor.value;
      ghost var owner := mail.connections[c].owner;
      var receiptsCreated := SyncMessages(c, ids, fate, y, push, cursor, walk.end.Gone?);
      if receiptsCreated.None? { return SyncFailed; }
      var ok := CloseSync(c, push, cursor, fate.close, y, walk.end.Gone?, ids);
      if !ok { return SyncFailed; }
      SameContentsSettled(db, old(mail), mail, owner);
      r := Completed(|ids|, receiptsCreated.value);
    }

    /** The cursor advances to the push's own id; an unchanged value is not written. */
    method CloseSync(
      c: nat, push: HistoryId, cursor: HistoryId, out: Outcome, ghost y: nat, reseed: bool, ghost ids: seq<MessageId>)
      returns (ok: bool)
      requires Valid() && AtMessage(y, c, push, cursor, ids, |ids|, reseed)
        && mail.connections[c].cursor == Some(cursor)
      modifies this`mail, this`world, this`trace
      ensures Valid() && (ok <==> out == Succeeds)
      ensures mail == if Applied(out) && cursor != push then MovedCursor(old(mail), c, push, reseed) else old(mail)
    {
      hide FieldsOk, Run, Next;
      SyncClosesEvent(world, y, cursor, ids, reseed, out, TooOld);
      Play(RunSync(y, out, TooOld));
      if Applied(out) && cursor != push { mail := MovedCursor(mail, c, push, reseed); }
      ok := out == Succeeds;
    }

    /** A push notification, which names at most the mailbox head. */
    method HandlePush(c: nat, push: HistoryId, fate: SyncFate, walk: HistoryWalk) returns (r: SyncResult)
      requires Valid() && c < |mail.connections| && push <= mail.head
      requires walk.end.Complete? && mail.connections[c].cursor.Some? ==>
        CoversHistory(world, mail.connections[c].cursor.value, mail.head, walk.pages)
      modifies this
      ensures Valid() && RowsKept(old(db), db)
      ensures r.Completed? <==> SyncCompletes(old(db), old(mail), c, fate, walk)
      // Without faults: what makes it fail.
      ensures FaultFree(fate) ==> (r.SyncFailed? <==>
        && old(mail).connections[c].cursor.Some?
        && (|| walk.end.Broken?
            || (walk.end.Complete? && exists k | 0 <= k < |Distinct(Concat(walk.pages))| ::
                  CannotImport(
                    old(db), old(mail), old(mail).connections[c].owner, Distinct(Concat(walk.pages))[k]))))
      // One listed message whose first attachment is refused blocks the mailbox: the sync fails whatever
      // succeeds, the cursor stays, and so does the message, for the next sync that lists it.
      ensures forall k: nat ::
        && old(mail).connections[c].cursor.Some? && walk.end.Complete? && k < |Distinct(Concat(walk.pages))|
        && Poison(old(db), old(mail), old(mail).connections[c].owner, Distinct(Concat(walk.pages))[k]) ==>
          && r.SyncFailed? && mail == old(mail)
          && Poison(db, mail, mail.connections[c].owner, Distinct(Concat(walk.pages))[k])
      ensures r.Completed? ==>
        && |mail.connections| == |old(mail).connections| && mail.connections[c].cursor == Some(push)
        && |db.rows| == |old(db.rows)| + r.receiptsCreated
      ensures r.Completed? && old(mail).connections[c].cursor.None? ==>
        r == Completed(0, 0) && db == old(db) && bucket == old(bucket) && queue == old(queue)
      ensures r.Completed? && old(mail).connections[c].cursor.Some? ==>
        r.messagesSeen == if walk.end.Gone? then 0 else |Distinct(Concat(walk.pages))|
      // Nothing but this connection's cursor moves, and without a write of it nothing.
      ensures mail.log == old(mail).log && mail.contents == old(mail).contents && mail.head == old(mail).head
      ensures |mail.connections| == |old(mail).connections|
        && mail.connections[c].owner == old(mail).connections[c].owner
      ensures forall d | 0 <= d < |mail.connections| && d != c :: mail.connections[d] == old(mail).connections[d]
      ensures r.SyncFailed? && !Applied(fate.seed) && !Applied(fate.close) ==> mail == old(mail)
      ensures r.Completed? && old(mail).connections[c].cursor.Some? && walk.end.Complete? ==>
        forall k | 0 <= k < |Distinct(Concat(walk.pages))| ::
          Settled(db, mail, mail.connections[c].owner, Distinct(Concat(walk.pages))[k])
    {
      hide FieldsOk, Run, Settled, Distinct, Concat, CoversHistory, SyncCompletes, CannotImport,
        Poison, AllPass;
      ghost var y := |world.syncs|;
      if FaultFree(fate) { FaultFreeSyncFailsIff(db, mail, c, fate, walk); }
      forall k: nat |
        && mail.connections[c].cursor.Some? && walk.end.Complete? && k < |Distinct(Concat(walk.pages))|
        && Poison(db, mail, mail.connections[c].owner, Distinct(Concat(walk.pages))[k])
        ensures !SyncCompletes(db, mail, c, fate, walk)
        ensures !AllPass(db, mail, mail.connections[c].owner, Distinct(Concat(walk.pages)), fate)
      {
        PoisonStopsTheSync(db, mail, c, fate, walk, k);
      }
      Play(PushArrives(c, push));
      if mail.connections[c].cursor.Some? {
        SameLogSameCover(old(world), world, mail.connections[c].cursor.value, mail.head, walk.pages);
      }
      r := SyncConnection(c, push, fate, walk, y);
    }

    // --- the outside world ---

    method Connect(owner: UserId) returns (c: nat)
      requires Valid()
      modifies this`mail, this`world, this`trace
      ensures Valid() && c == |old(mail).connections|
      ensures mail == old(mail).(connections := old(mail).connections + [Connection(owner, None, 0)])
    {
      c := |mail.connections|;
      mail := mail.(connections := mail.connections + [Connection(owner, None, 0)]);
      Play(Machine.Connect(owner));
    }

    method ReceiveMail(history: HistoryId, message: MessageId, payload: Part)
      requires Valid() && history > mail.head
      modifies this`mail, this`world, this`trace
      ensures Valid() && mail.head == history && mail.log == old(mail).log + [LogEntry(history, message)]
      ensures mail.connections == old(mail).connections && message in mail.contents
      ensures message !in old(mail).contents ==> mail.contents[message] == payload
    {
      hide FieldsOk, Next, Run;
      MailEvent(world, history, message, payload);
      mail := mail.(
        log := mail.log + [LogEntry(history, message)], head := history,
        contents := if message in mail.contents then mail.contents else mail.contents[message := payload]);
      Play(MailArrives(history, message, payload));
    }
  }
}
