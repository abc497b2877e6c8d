# SpendLens: receipts to expenses, proved

Proofs about the backend of SpendLens (and two pieces of its web client): how receipts get in, how the
workers turn them into expenses, how expenses are listed and edited, and how the analytics read them.
`dafny verify dfyconfig.toml` checks everything.

## What is modelled

**The ingestion pipeline as one interleaved machine** (`Machine.dfy`). Every upload, email delivery,
deletion, retry, worker task and mailbox sync in flight is a record with a program counter. An event runs one
statement of one record, lets one die, delivers a task again or a second copy of it (finished tasks included), or
is something the outside world does, so a list of events is an arbitrary interleaving with arbitrary crashes. Each
fallible statement ends in one of four ways: it succeeds, it fails, it takes effect but the caller sees an exception
(a lost acknowledgement), or, in the OCR step, it rejects the input. Database constraints are guards that make an
insert fail. Ghost history sets record what happened and steer nothing; `History.dfy` proves of five of them that they
hold exactly what the events of the run did, and of the other two that what they hold did happen. Theorems about
every run: `StorageSafety`, `PipelineSafety`, `Progress` and `Settling`, `Exhaustion`, `Coverage`; and of every
event, exactly what it may change: `Frames`.

**The same services as imperative code** (`Backend.dfy`, with `Serial.dfy`). The class `Service` holds the
tables, the bucket, the queue and the mailbox as mutable fields, and its methods follow the Python statement by
statement: the attachment loop, the paged history walk, the OCR branches, the two idempotency guards. Each method
plays the matching events on the machine and ends in agreement with it, so every theorem about runs holds of every
state the methods leave (`Guarantees.dfy`). Here, with one call at a time, the column-level guarantees are proved
too: which statuses come with an error message, a payload, an OCR method.

**Lists and cursors** (`Pagination`, `Cursor`, `Base64`, `Uuid`, `Calendar`, `Text`), **analytics** (`Ledger`,
`Insights`, `Budgets`, `Anomalies`, `Chart`, `Money`, and `Doubles` for their floating-point divisions), **receipt
text** (`ReceiptParser`, `Payload`), **editing and learned corrections** (`ExpenseStore`, one request at a time, and
`EditRaces`, overlapping ones), **the OAuth state** (`OAuthState`), **the client's optimistic cache**
(`OptimisticCache`).

Query answers that the database computes (groups, sums, sort orders) are inputs, constrained by what the SQL
promises; so are object-store, broker, OCR, classifier and clock results, and the keyed hash. Identifiers are
naturals, amounts whole cents, Gmail history ids naturals. Ratios, percentages and z-scores are rounded as the code
rounds them: decimals of 28 digits and IEEE 754 doubles, written out over the reals.

## Findings

Places where the code does less than its comments or design notes say. The model follows the code.

- A commit whose acknowledgement is lost makes `create_receipt` delete the blob of a row that exists. A row's
  blob is missing exactly in that case (`StorageSafety.RowDanglesIffWiped`, `LostAcknowledgementDangles`).
- `detect_anomalies` guards the unrounded deviation and divides by the rounded one. A category whose history is the
  same amount every time but once, when it was a cent off, divides by zero (`Anomalies.OneCentOffDividesByZero`);
  `ReportFailsIff` gives the exact condition.
- `backend/app/tasks/celery_app.py:73-76` acknowledges late, but a killed child process is acknowledged all the
  same (the flag that would reject its task is not set): the receipt stays `processing` for good
  (`Guarantees.KilledWorkerLeavesProcessing`).
- The design note `docs/adr/0005-pipeline-architecture.md:60` shows a failed categorisation ending in `failed`. No
  code does that (`Exhaustion.CategoriseWritesIff`): the row stays `parsed` for good
  (`Guarantees.ExhaustedCategorisingLeavesParsed`). `Exhaustion.StatusAfterGivingUp` gives the status exactly, over
  every run and continuation.
- A first plausible line longer than the 255 characters of `merchant_name` makes the expense's insert fail on every
  attempt, without any fault: its receipt is one of those that stay `parsed` (`Backend.Service.CategoriseReceipt`).
- A late push moves the Gmail cursor backwards (`Guarantees.LatePushMovesCursorBack`), exactly when a sync then
  writes a push below it (`Coverage.CursorDropsIff`). Coverage holds nevertheless.
- One attachment over the size limit, when it is the first that is not skipped, blocks a mailbox: no sync that lists
  its message completes, whatever else succeeds, the cursor stays where it is, and so does the message, for every
  later sync (`Backend.Service.HandlePush`, `Serial.PoisonStopsTheSync`). Without faults a sync fails exactly on a
  broken walk or a message that cannot be imported (`Serial.FaultFreeSyncFailsIff`).
- A second good attachment of one email meets the unique index and fails the delivery: one receipt a message, not
  one an attachment (`Backend.Service.ProcessInboundEmail`).
- A receipt whose reprocessing failed after its expense was made is set to `categorised` with its error message
  still in place (`Guarantees.CategorisedWithAnError`): exactly the rows that had one keep it, which is every failed
  row and no parsed one (`Backend.Service.CategoriseReceipt`).
- Two requests with one `If-Match` tag both succeed if the second reads before the first writes
  (`EditRaces.LaterHolderPassesIffBeforeTheWrite`). The columns merge, so of two edits of one field the first is lost
  (`EditRaces.BothHoldersSucceed`, `FieldsHoldTheLastWrite`), and the correction learned is the one each request saw.
- A budget that is spent to exactly its alert threshold raises no alert at 29, 57, 58, 113, 114, 115 and 116 percent:
  `float(29 / 100) * 100` is below 29. At every other threshold, and away from equality, the float test is exact
  (`Budgets.AlertIff`, `ReachedWithoutAlert`).
- Likewise 0.30 over a deviation of 0.10 scores below 3 (`Anomalies.ThreeDeviationsScoreLess`). At the default
  threshold of 2.0 the filter is exact (`Anomalies.DefaultFilterIff`), at others away from equality
  (`Anomalies.ThresholdIsExactApart`).
- A cursor whose date is good and whose id is a JSON number or truth value raises an exception that
  `backend/app/core/pagination.py:59` does not catch, instead of the client error (`Cursor.UncaughtIff`,
  `NumberIsUncaught`). So does an OAuth state whose digest field is not ASCII (`OAuthState.WrongDigestFails`).
- Overlapping optimistic mutations do not roll back separately (`OptimisticCache.OverlapIsNotIsolated`).

## Model

| member | source | states |
|---|---|---|
| StorageSafety.RunKeepsInv | backend/app/services/receipt_service.py:103-159 | In every state of every run: blobs, rows and calls in flight account for each other, and the unique index is respected. |
| StorageSafety.OneReceiptPerMessage | backend/app/models/receipt.py:28-34 | However deliveries of one email repeat, race and crash, a user has at most one receipt for it. |
| StorageSafety.RowDanglesIffWiped | backend/app/services/receipt_service.py:133-155 | A row's blob is missing exactly when two events of the run did it: the commit of the row lost its acknowledgement, and the clean-up then removed the key. |
| StorageSafety.NoRowDangles | backend/app/services/receipt_service.py:133-135 | In every run in which row commits are acknowledged, with any other failures and crashes, each row's blob exists. |
| StorageSafety.LostAcknowledgementDangles | backend/app/services/receipt_service.py:147-155 | A run of four events after which a row has no blob. |
| StorageSafety.OrphansAreExplained | backend/app/services/receipt_service.py:217-231 | A blob without a row belongs to a create or delete in flight, or an event of the run let it go: a put or commit with a lost acknowledgement, a clean-up or delete that failed, or a crash. |
| StorageSafety.CalmRunsConserveBlobs | backend/app/services/receipt_service.py:147-155 | Without crashes, lost acknowledgements or failed blob deletes, however calls race, the blobs at rest are exactly the rows' keys, one each: a race's loser leaves none. |
| StorageSafety.DuplicateDeliveryChangesNothing | backend/app/services/inbound_email_service.py:193-217 | A delivery that finds the message changes no row, blob or task, whatever its statements' outcomes. |
| History.ExpensedWasReal | backend/app/tasks/categorise_receipt.py:145-157 | The history set of expensed receipts is truthful: at some moment of the run the receipt had an expense. |
| History.DeliveredWasReal | backend/app/services/receipt_service.py:146-156 | The history set of delivered messages is truthful: at some moment of the run a row for the message existed. |
| History.RecordedIffHappened | backend/app/services/receipt_service.py:130-159 | For every kind of recorded fact (a key attached, let go, committed unacknowledged, wiped; a receipt stranded): it is recorded exactly if an event of the run did it. |
| PipelineSafety.RunKeepsInv | backend/app/tasks/categorise_receipt.py:103-157 | The invariant behind the three results below holds after every interleaving of workers, redeliveries, duplicate copies of tasks, retries and deletions. |
| PipelineSafety.AtMostOneExpense | backend/app/models/expense.py:41-46 | Two expenses of one receipt are the same expense, in every reachable state, however often its tasks run, finished ones included. |
| PipelineSafety.ExpenseBelongsToReceiptOwner | backend/app/tasks/categorise_receipt.py:145-157 | An expense's receipt exists and has the expense's owner. |
| PipelineSafety.CategorisedImpliesExpensed | backend/app/tasks/categorise_receipt.py:114-157 | A categorised receipt had an expense at some moment, even if the user deleted it since. |
| Progress.RunKeepsInv | backend/app/tasks/process_receipt.py:112-158 | In every state each unfinished receipt has a task or a caller responsible for it, or a recorded reason why not. |
| Settling.WorkerStepDecreases | backend/app/tasks/process_receipt.py:56-64 | Each worker statement, whatever its outcome, lowers the measure of remaining work. |
| Settling.WorkerRunsAreBounded | backend/app/tasks/categorise_receipt.py:58-64 | From any reachable state the workers can take at most that many further steps. |
| Settling.QuietReceiptsAreClassified | backend/app/tasks/process_receipt.py:126-158 | Once no task is live every receipt is categorised, failed, or in a status explained by a task that was exhausted or lost, by a caller that still owes its enqueue, or by the event of the run that dropped it. |
| Settling.CleanRunsSettle | backend/app/tasks/celery_app.py:73-77 | With any failures, crashes and redeliveries before, but no killed child, and with reads, marks and failure markers that succeed on a task's last attempt: no receipt stays processing, and parsed means exhausted categorise retries. |
| Exhaustion.CategoriseWritesIff | backend/app/tasks/categorise_receipt.py:103-157 | A categorise statement writes no status but categorised, and exactly when its insert or its correction applies. |
| Exhaustion.StatusIsLastWritten | backend/app/tasks/process_receipt.py:126-158 | Over any run from any state, a row's status is the last one written, or the one it started with. |
| Exhaustion.StatusAfterGivingUp | backend/app/tasks/categorise_receipt.py:58-64 | After a categorise task gives up, over every run before and after: the exact status, and exactly when it is parsed. |
| Frames.RowGoesIff | backend/app/services/receipt_service.py:217-221 | At any event a receipt goes exactly when its deletion commits; while it is there its owner, blob and message stay. |
| Frames.RowComesIff | backend/app/services/receipt_service.py:138-146 | At any event a receipt comes exactly when a create commits, with the caller's owner and message and the blob just written, as uploaded. |
| Frames.ReceiptsLeaveByTheirOwner | backend/app/services/receipt_service.py:210-231 | In every run a receipt that goes was deleted by its owner: no crash, race, retry or worker loses one. |
| Frames.ExpenseGoesIff | backend/app/models/expense.py:41-46 | At any event an expense goes exactly when it is removed; it keeps its owner, and its link unless that very receipt is deleted. |
| Frames.ExpenseComesIff | backend/app/tasks/categorise_receipt.py:145-157 | An expense comes exactly by hand, without a receipt, or by the commit of a categorise task, for its receipt. |
| Frames.BlobThereIff | backend/app/services/receipt_service.py:130-155 | At any event blobs come and go exactly by a put, a clean-up, or the end of a deletion that takes effect. |
| Frames.TaskStays | backend/app/tasks/process_receipt.py:56-64 | No task is lost or turned into another; only its own statements, redelivery and killing move it, and it gives up only at the end of its fourth attempt. |
| Frames.SyncTriesFourTimes | backend/app/tasks/gmail_history_sync.py:33-44 | A mailbox sync that fails starts over, three times, and is then given up. |
| Coverage.RunKeepsInv | backend/app/services/gmail_sync_service.py:363-453 | The coverage invariant over concurrent syncs, crashes, retries and pushes in any order. |
| Coverage.CursorNeverPassesAReceipt | backend/app/services/gmail_sync_service.py:379-440 | Every message with history id after the largest seed and up to the cursor that carries an acceptable attachment has had a receipt committed for its user. |
| Coverage.CursorDropsIff | backend/app/services/gmail_sync_service.py:436-440 | The cursor goes back at an event exactly when a sync writes a push below it, and it is never lost. |
| Coverage.DistinctKeepsAll | backend/app/services/gmail_sync_service.py:150-195 | De-duplication across pages keeps every id and repeats none. |
| Coverage.DistinctKeepsOrder | backend/app/services/gmail_sync_service.py:150-195 | What was seen first stays first, whatever follows. |
| Mail.CarriesReceiptIffFetched | backend/app/services/gmail_sync_service.py:245-293 | A message tree of any depth holds an acceptable receipt exactly when the flattened attachments do. |
| Mail.AttachmentsAreTheLeaves | backend/app/services/gmail_sync_service.py:245-293 | The flattened attachments are exactly what the tree's leaves of an allowed type, with a name and a body, are fetched as. |
| Mail.AttachmentsInOrder | backend/app/services/gmail_sync_service.py:245-293 | They come in tree order. |
| Guarantees.EveryServedStateIsSafe | backend/app/services/receipt_service.py:103-258 | After any mix of service calls with any faults: one receipt a message, one expense a receipt made by its owner from a payload, a blob behind every acknowledged row, and error and payload columns as the status demands. |
| Guarantees.ServedCursorIsHonest | backend/app/services/gmail_sync_service.py:436-440 | The coverage guarantee for the cursor a service holds. |
| Guarantees.LatePushMovesCursorBack | backend/app/services/gmail_sync_service.py:439-440 | A run after which the cursor is smaller than before. |
| Guarantees.KilledWorkerLeavesProcessing | backend/app/tasks/celery_app.py:69-77 | A run that ends quiet with a receipt still processing. |
| Guarantees.ExhaustedCategorisingLeavesParsed | backend/app/tasks/categorise_receipt.py:58-64 | A run that ends quiet with a receipt parsed and its categorise task exhausted. |
| Guarantees.CategorisedWithAnError | backend/app/tasks/categorise_receipt.py:114-124 | A sequence of service calls after which a receipt is categorised and has an error message. |
| Backend.OcrAndParse | backend/app/tasks/process_receipt.py:187-262 | Which inputs end in a domain error, a transient error or a reading; the vision result is used exactly when asked for and given; the payload is the JSON of what was parsed. |
| Backend.ListAddedMessageIds | backend/app/services/gmail_sync_service.py:141-195 | The distinct ids of all pages in order of first appearance; none after a 404; an error otherwise. |
| Backend.Service.CreateReceipt | backend/app/services/receipt_service.py:103-159 | Refusals by size and content change nothing; otherwise the fate of each statement decides exactly what is answered and whether the row, the blob and the task are there; without faults it fails only on the unique index, and then leaves rows and blobs as they were. |
| Backend.Service.UploadReceipt | backend/app/services/receipt_service.py:103-159 | The direct upload: accepted exactly when it has 1 to 10,485,760 bytes that sniff and every statement succeeds; refusals change nothing, success stores one of each. |
| Backend.Service.FindDelivered | backend/app/services/inbound_email_service.py:193-206 | The dedup query returns exactly the user's receipts of the message. |
| Backend.Service.ProcessInboundEmail | backend/app/services/inbound_email_service.py:178-266 | Deduplication exactly when the message is known, with no change; a first delivery completes exactly when nothing is to be stored, or the only attachment that is not skipped is good and its statements succeed; then at most that one is stored; why it fails without faults, and what is stored then; a refused first attachment stores nothing, and no other row is changed, lost or added. |
| Backend.Service.DeliverEmail | backend/app/services/inbound_email_service.py:207-217 | The whole delivery: deduplicated exactly when the message has a receipt, with no change; otherwise completed exactly when its attachments and their statements go through, with at most one stored; without faults it fails exactly on a refused or a second attachment, and what is then stored; no other row is touched. |
| Backend.Service.DeleteReceipt | backend/app/services/receipt_service.py:210-231 | The fate of each statement decides exactly the answer, and what is gone: the row alone, the links of its own expenses alone, its blob alone; a stranger's or unknown id changes nothing. |
| Backend.Service.RetryReceipt | backend/app/services/receipt_service.py:234-258 | Only the owner's failed rows start over; the fate of each statement decides exactly the answer, and whether the row is reset to uploaded, its error cleared and a task queued; refusals change nothing. |
| Backend.Service.ProcessReceipt | backend/app/tasks/process_receipt.py:112-158 | The whole attempt: under any faults, exactly when it raises, which status the row ends in and whether it is handed on; a deleted row is no error; without faults it ends parsed, failed for good, or failed and requeued, as the OCR step said, with the payload and the error; no other receipt and no expense is touched. |
| Backend.Service.CategoriseReceipt | backend/app/tasks/categorise_receipt.py:103-163 | Under any faults, exactly when it raises and whether it writes nothing, the status alone, or the expense; the expense carries what the payload says and the category of the correction, else of the rule, else of the classifier if there is a key, else OTHER; it is made exactly if it fits the columns; a receipt that has one keeps it, and its error column exactly if it had one. |
| Backend.Service.SyncMessage | backend/app/services/gmail_sync_service.py:406-434 | It gets through exactly when the message can be fetched and has nothing attached, or its delivery finds its receipt or completes; then it is settled, counted exactly if a receipt is new, and nothing settled before is unsettled. |
| Backend.Service.SyncMessages | backend/app/services/gmail_sync_service.py:404-434 | The loop completes exactly when every listed message gets through; all are then settled and the counts add up. |
| Backend.Service.SyncConnection | backend/app/services/gmail_sync_service.py:363-453 | It completes exactly when a first push sets the cursor, or the walk does not break, every listed message gets through and the cursor is written; a completed sync leaves the cursor at the push, counted its new rows, and settled every message of the walk; one that cannot get a message through leaves the cursor. |
| Backend.Service.HandlePush | backend/app/services/gmail_sync_service.py:363-453 | The same for a push at most the mailbox head, and without faults the exact condition on walk and messages under which it fails; a message whose first attachment is refused fails it whatever succeeds, and stays; nothing but this connection's cursor moves. |
| Serial.FaultFreeGoesThroughIff | backend/app/services/inbound_email_service.py:219-266 | Without faults a first delivery completes unless the first attachment that is not skipped is refused, or is good but not alone. |
| Serial.FaultFreeSyncFailsIff | backend/app/services/gmail_sync_service.py:383-440 | Without faults a sync fails exactly when it had a cursor and the walk breaks off or lists a message that cannot be imported. |
| Serial.PoisonStopsTheSync | backend/app/services/gmail_sync_service.py:404-434 | A listed message without a receipt whose first attachment is refused stops every sync, whatever succeeds. |
| Pagination.Clamp | backend/app/services/expense_service.py:153 | The page size used is between one and the maximum. |
| Pagination.SearchFindsSubstrings | backend/app/services/expense_service.py:119-122 | A search for a name without wildcards finds exactly the merchants that contain it, in any case. |
| Pagination.FilterIff | backend/app/services/expense_service.py:116-132 | What a filter lets through, both ends of each range included. |
| Pagination.SomeOrder | backend/app/services/expense_service.py:171 | Every table has a strictly descending list by date and id. |
| Pagination.SortedListIsUnique | backend/app/services/expense_service.py:143-148 | It has only one: paging is deterministic even within a day. |
| Pagination.CursorMarksTheTail | backend/app/services/expense_service.py:158-169 | The keyset predicate of the n-th row selects exactly the rows after it. |
| Pagination.PageSplitsTheRest | backend/app/services/expense_service.py:171-181 | A page is the head of what is left and its cursor stands for exactly the tail; there is a cursor exactly when rows remain. |
| Pagination.PagesAreTheSortedList | backend/app/services/expense_service.py:135-181 | For every table, filter and page size the pages concatenate to the matching rows, later days first and larger ids first within a day, none twice, none missing; all but the last are full. |
| Pagination.EmittedDescends | backend/app/services/expense_service.py:158-181 | With arbitrary writes between fetches, emitted keys strictly descend over the whole walk. |
| Pagination.OnThePageOrBelow | backend/app/services/expense_service.py:173-179 | A row below the cursor is on the page or below the next cursor. |
| Pagination.StableRowIsEmitted | backend/app/services/expense_service.py:158-181 | A row present at every fetch is emitted or still lies ahead. |
| Pagination.StableRowsAppearExactlyOnce | backend/app/services/expense_service.py:135-181 | A row that exists, matches and keeps its key throughout a completed walk is returned exactly once, whatever else is written. |
| Pagination.WireRoundTrip | backend/app/api/v1/endpoints/expenses.py:114-133 | A returned cursor read back names the same position; it is never taken for an absent one. |
| Pagination.WireWalkIsWalk | backend/app/api/v1/endpoints/expenses.py:114-134 | A client that only sends back the strings it gets collects exactly the walk by keys. |
| Cursor.CursorRoundTrip | backend/app/core/pagination.py:43-60 | decode(encode(c)) is c for every date of the calendar and every UUID. |
| Cursor.EncodeIsNotEmpty | backend/app/core/pagination.py:43-48 | An encoded cursor is not the empty string. |
| Cursor.EncodeIsInjective | backend/app/core/pagination.py:43-48 | Different positions have different cursors. |
| Cursor.PayloadParses | backend/app/core/pagination.py:44-47 | The compact JSON text of any two members parses back to them. |
| Cursor.UncaughtIff | backend/app/core/pagination.py:51-60 | Of all payloads with two members, which decode and which escape as an uncaught exception: a real date with a number or truth value for an id. |
| Cursor.NumberIsUncaught | backend/app/core/pagination.py:57-59 | Every cursor of a date and a number is such a one. |
| Base64.DecodeEncode | backend/app/core/pagination.py:48-54 | The decoder's state machine inverts the encoder on all byte strings (section 5 of RFC 4648). |
| Base64.WithoutPaddingIff | backend/app/core/pagination.py:53-54 | Text without padding decodes exactly when its data characters fill whole groups of four, whatever stands between them. |
| Base64.RepadRestores | backend/app/services/gmail_sync_service.py:231-233 | Padding up to a multiple of four restores exactly what stripping removed. |
| Base64.UnpaddedRoundTrip | backend/app/services/gmail_sync_service.py:231-235 | Strip, re-pad and decode is the identity on all byte strings, for cursors and attachments alike. |
| Uuid.RoundTrip | backend/app/core/pagination.py:45-57 | The hyphenated text of every 128-bit id parses back to it. |
| Calendar.IsoRoundTrip | backend/app/core/pagination.py:45-56 | The ISO text of every calendar date parses back to it. |
| Calendar.MonthBoundsHoldTheMonth | backend/app/services/insights_service.py:57-70 | The half-open interval holds exactly the days of the month. |
| Calendar.MonthsBack | backend/app/services/insights_service.py:73-84 | The loop arrives at the first of the month exactly n months earlier, or at the error below year one. |
| Calendar.MonthsTile | backend/app/services/insights_service.py:57-84 | Each month ends where the next begins. |
| Ledger.CategoriesPartition | backend/app/services/insights_service.py:154-155 | Sums and counts over distinct covering categories add up to the whole. |
| Ledger.SelectKeepsCounts | backend/app/services/insights_service.py:118-123 | A query takes exactly the user's rows of the interval, each as often as the table holds it. |
| Ledger.MonthsPartition | backend/app/services/insights_service.py:207-221 | Sums over consecutive months add up to the whole. |
| Insights.GrandTotalIsTheMonth | backend/app/services/insights_service.py:111-162 | The response names the month, keeps the answer's items, and its grand total and count are those of the month's rows. |
| Insights.WindowIsMonths | backend/app/services/insights_service.py:202-219 | A day is in the trend window exactly when its month is one of the last n. |
| Insights.SortedCategories | backend/app/services/insights_service.py:228 | The categories of the answer, ascending by value, each once. |
| Insights.FillTotals | backend/app/services/insights_service.py:229-234 | The dictionary, read with default zero, is each cell's spend. |
| Insights.FillGrid | backend/app/services/insights_service.py:236-245 | The nested loops fill the dense grid in row-major order. |
| Insights.MonthDates | backend/app/services/insights_service.py:207 | The n months of the window, ascending. |
| Insights.Trends | backend/app/services/insights_service.py:189-251 | Whatever the order of the answer: the months, exactly the categories with spend, and every cell's spend; it fails exactly when the window leaves the calendar. |
| Insights.GridCell | backend/app/services/insights_service.py:177-186 | The grid has months times categories cells and each holds its month's and category's spend. |
| Insights.TrendsConserveSpend | backend/app/services/insights_service.py:202-251 | All buckets add up to everything spent in the window. |
| Insights.EachExpenseHasOneBucket | backend/app/services/insights_service.py:209-221 | Every expense of the window falls in exactly one bucket. |
| Insights.MonthIsASliceOfTheWindow | backend/app/services/insights_service.py:118-139 | The month query selects exactly the window's rows of that month. |
| Insights.TrendsAgreeWithBreakdown | backend/app/services/insights_service.py:111-251 | For each month of the window the buckets add up to the breakdown's grand total and each equals its category total. |
| Budgets.Tally | backend/app/services/budget_service.py:226-230 | The accumulated dictionary is each category's sum. |
| Budgets.Status | backend/app/services/budget_service.py:190-256 | Every line: spent is the month's sum of its category, spent plus remaining is the budget, the ratio is within one part in 2^52, and the alert is set exactly when the threshold is passed, or reached at a percentage that is not one of seven; no budgets need no query. |
| Budgets.AlertIff | backend/app/services/budget_service.py:237-250 | For every threshold up to 200 and every amount of the column, the float test equals a comparison of whole cents, except at equality at seven percentages. |
| Budgets.ReachedWithoutAlert | backend/app/services/budget_service.py:237-250 | Spending 29.00 of 100.00 raises no alert at 29 percent. |
| Doubles.PercentFallsShortIff | backend/app/services/budget_service.py:237-250 | Of the percentages from 1 to 200 exactly seven, divided and multiplied by 100 in doubles, come out smaller. |
| Doubles.PercentReaches | backend/app/services/budget_service.py:237-250 | The two rounded divisions and the rounded product compare with a whole percentage as the exact fraction does, unless the two are equal. |
| Doubles.RatioIsNear | backend/app/services/budget_service.py:237 | A decimal quotient turned into a double is off by at most one part in 2^52. |
| Budgets.StatusAgreesWithBreakdown | backend/app/services/budget_service.py:216-247 | Spent is the category's total in the month's breakdown, zero if not listed. |
| Chart.Pivot | frontend/src/api/insights.ts:66-78 | One record a month holding the last bucket of each category; it throws exactly when a bucket names a month outside the list. |
| Chart.RecordHoldsItsCells | frontend/src/api/insights.ts:71-77 | A record holds exactly its month's buckets, none lost, none invented. |
| Chart.OrderDoesNotMatter | frontend/src/api/insights.ts:71-76 | The same buckets in another order give the same record. |
| Chart.ChartShowsTheSpend | frontend/src/api/insights.ts:59-78 | From rows to chart: each entry reads back as that month's and category's spend. |
| Chart.RankIsAlphabetical | backend/app/services/insights_service.py:228 | The categories of the trends are in the order of their wire values. |
| Anomalies.SpreadIsPositiveIffAmountsDiffer | backend/app/services/insights_service.py:356-366 | n times the sum of squares is at least the squared sum, and larger exactly when two amounts differ. |
| Anomalies.RoundedRoot | backend/app/services/insights_service.py:348 | The deviation rounded half up, characterised without division. |
| Anomalies.UsableIff | backend/app/services/insights_service.py:357-366 | The HAVING clause keeps a category exactly when it has five rows and two different amounts. |
| Anomalies.BaselineSummarises | backend/app/services/insights_service.py:340-349 | A baseline holds the mean rounded to the cent, the sample deviation rounded to the cent, and the number of its amounts. |
| Anomalies.SummaryIsUnique | backend/app/services/insights_service.py:340-349 | Those three are determined by the amounts. |
| Anomalies.SpreadIsDeviation | backend/app/services/insights_service.py:348 | The spread is n times the sum of squared distances to any centre, less the centre's own. |
| Anomalies.DivisorIsZeroIff | backend/app/services/insights_service.py:348-372 | The guard lets a zero divisor through exactly when four times the spread is positive and below n(n - 1). |
| Anomalies.OneCentOffDividesByZero | backend/app/services/insights_service.py:360-364 | Any history of equal amounts with one a cent off has a zero divisor. |
| Anomalies.ReportFailsIff | backend/app/services/insights_service.py:370-395 | The report fails exactly when a lookback row's category has such a baseline. |
| Anomalies.ReturnedRowsQualify | backend/app/services/insights_service.py:374-411 | Every returned row is the user's, in the lookback window, in a category with five amounts that differ; it comes with their rounded mean, rounded sample deviation and number, and with the double-precision score of its distance from that mean, at or above the threshold. |
| Anomalies.ScoreIsNear | backend/app/services/insights_service.py:370-372 | A score is the exact quotient up to one part in 2^51. |
| Anomalies.ThresholdIsExactApart | backend/app/services/insights_service.py:391 | The test against any threshold is exact for amounts farther from it than that. |
| Anomalies.DefaultFilterIff | backend/app/services/insights_service.py:267-391 | At the default threshold a row is scored exactly when it is the user's, in the window, its category has five amounts that differ, and it exceeds their mean, rounded to the cent, by two deviations, rounded to the cent. |
| Anomalies.ThreeDeviationsScoreLess | backend/app/services/insights_service.py:370-391 | 0.30 over a deviation of 0.10 scores below 3. |
| Anomalies.OmittedRowsAreBeaten | backend/app/services/insights_service.py:393-394 | At most fifty rows; a qualifying row is omitted only when fifty that score at least as high are returned. |
| Anomalies.BaselineIgnoresLookback | backend/app/services/insights_service.py:319-323 | Rows of the lookback window cannot change a baseline. |
| Money.RoundTrip | backend/app/services/receipt_parser.py:118 | The text of every amount parses back to it. |
| ReceiptParser.MatchesExactlyAmounts | backend/app/services/receipt_parser.py:64-72 | The matcher accepts a prefix exactly when it is one to four digits, comma groups of three, a point and two digits, ending at a word boundary; never two lengths. |
| ReceiptParser.FindsNothingIff | backend/app/services/receipt_parser.py:179-180 | The scan finds nothing exactly when no amount occurs anywhere in the text. |
| ReceiptParser.FindsLeftmostFirst | backend/app/services/receipt_parser.py:179 | The first find is the leftmost amount and the rest is the scan of what follows: left to right without overlap. |
| ReceiptParser.AmountHasValue | backend/app/services/receipt_parser.py:199-200 | Every amount converts, to the number its fields say: each group of three makes thousands of what stands before it, and the last two digits are cents. |
| ReceiptParser.PrintedAmountSaysItself | backend/app/services/receipt_parser.py:199-200 | The text of every amount below 10,000.00 is an amount and says itself. |
| ReceiptParser.KeywordDecidesTotal | backend/app/services/receipt_parser.py:176-181 | The total is the cents said by the last amount on the first amount-bearing line of the most specific keyword that has one. |
| ReceiptParser.LargestWithoutKeyword | backend/app/services/receipt_parser.py:183-185 | Without such a line it is the cents said by an amount of the page, and no amount says more. |
| ReceiptParser.NoTotalIff | backend/app/services/receipt_parser.py:166-185 | There is no total exactly when no line holds an amount. |
| ReceiptParser.HasKeywordIff | backend/app/services/receipt_parser.py:158-163 | A line bears a keyword exactly when it can be cut out, in any case, with no word character touching it. |
| ReceiptParser.SpecificKeywordsComeFirst | backend/app/services/receipt_parser.py:77-83 | Of two keywords one of which stands in the other, the longer is tried first. |
| ReceiptParser.MerchantIsFirstPlausible | backend/app/services/receipt_parser.py:135-155 | The merchant is the first plausible of the first five lines. |
| ReceiptParser.LinesAreTrimmed | backend/app/services/receipt_parser.py:127 | The extractors see no blank line and no surrounding blanks. |
| ReceiptParser.LinesAreTheStretches | backend/app/services/receipt_parser.py:127 | No line is lost, added or moved: a text is read break by break, and a stretch without a break is its stripped self, unless blank. |
| Payload.StoredRoundTrip | backend/app/tasks/categorise_receipt.py:166-189 | Storing and reading back loses nothing of any parsed receipt. |
| Payload.UnreadableGetsPlaceholders | backend/app/tasks/categorise_receipt.py:166-189 | A field that is missing or does not read gets its placeholder, and the others are untouched. |
| Payload.TextToExpense | backend/app/services/receipt_parser.py:110-132 | For every text the expense carries the extracted merchant and total and the date found, with "Unknown", 0.00 and today exactly where there is none. |
| ExpenseStore.ExpenseService.CreateExpense | backend/app/services/expense_service.py:84-100 | One row more, under an id that no row had, with a new version. |
| ExpenseStore.ExpenseService.UpdateExpense | backend/app/services/expense_service.py:184-229 | Guards, patch loop, correction and write refine the abstract update; the answer is stated outright, no row comes or goes, and every other row stays. |
| ExpenseStore.ExpenseService.RecordCorrection | backend/app/services/expense_service.py:232-264 | The upsert on user and normalised merchant. |
| ExpenseStore.ExpenseService.DeleteExpense | backend/app/services/expense_service.py:267-281 | The answer is stated outright; exactly the named row goes, exactly when it is the caller's and the tag fits; every other row and all corrections stay. |
| ExpenseStore.PatchSetsOnlyItsFields | backend/app/services/expense_service.py:194-210 | Fields the patch does not set stay. |
| ExpenseStore.LastAssignmentWins | backend/app/services/expense_service.py:209-210 | The last assignment sets its field to its value, and nothing else. |
| ExpenseStore.CorrectionsRememberTheLastEdit | backend/app/services/expense_service.py:208-264 | After any run the stored correction is the category of the last edit that changed it, its count the number of such edits, and absent without one. |
| ExpenseStore.FixesAreSticky | backend/app/services/categorisation.py:50-95 | Every spelling with a taught merchant's normal form gets the last taught category, whatever the rules and the classifier say. |
| ExpenseStore.UntaughtFollowsTheRule | backend/app/services/categorisation.py:82-95 | After any run in which a merchant was never taught, every spelling gets the rule's category wherever there is a rule; else the classifier's exactly when a key is set and it answers; else OTHER. |
| ExpenseStore.NormalFormStays | backend/app/services/categorisation.py:39-47 | A trimmed name in lower case is its own normal form: different ones stay different. |
| ExpenseStore.SpellingsShareANormalForm | backend/app/services/categorisation.py:39-47 | Surrounding blanks and letter case do not change the normal form. |
| ExpenseStore.RejectedChangesNothing | backend/app/services/expense_service.py:203-206 | A request answered not found or mismatch changes neither rows nor corrections. |
| ExpenseStore.AnswerIff | backend/app/services/expense_service.py:203-206 | Which request on a row is answered not found, which mismatch, and which goes through. |
| ExpenseStore.OthersStay | backend/app/services/expense_service.py:184-281 | Every row but the request's own stays exactly as it is. |
| ExpenseStore.RowGoesIff | backend/app/services/expense_service.py:275-281 | A row goes exactly when its owner deletes it under no tag or the right one. |
| ExpenseStore.RowComesIff | backend/app/services/expense_service.py:84-100 | A row comes exactly by a create, under an unused id, with the given fields and the caller as its owner. |
| ExpenseStore.StaleIsRejected | backend/app/services/expense_service.py:205-206 | A tag of a version that is gone is always rejected. |
| ExpenseStore.AtMostOneWinsPerTag | backend/app/services/expense_service.py:70-81 | In any run, once a request with a tag changed its row, every later request with that tag is rejected without effect (section 13.1.1 of RFC 9110). |
| ExpenseStore.NoChangeKeepsTheTag | backend/app/services/expense_service.py:208-229 | An update writes nothing, and keeps the tag, exactly when it leaves the row as it was. |
| EditRaces.UndisturbedIsApply | backend/app/services/expense_service.py:184-281 | A request that writes right after it read does what the abstract request does. |
| EditRaces.SerialIsRun | backend/app/services/expense_service.py:184-281 | Requests that do not overlap are the runs of the store. |
| EditRaces.StepLeavesOthers | backend/app/services/expense_service.py:184-281 | In any interleaving a step leaves every row but its request's own as it is. |
| EditRaces.RowDisappearsIff | backend/app/services/expense_service.py:275-281 | In any interleaving a row disappears exactly when a delete of it is written; that delete is its owner's and passed its checks before. |
| EditRaces.SameVersionIff | backend/app/services/expense_service.py:70-81 | Over any interleaving a row is as it was exactly when no step in between touched it: a version that was left never comes back. |
| EditRaces.LaterHolderPassesIff | backend/app/services/expense_service.py:203-206 | In any interleaving of any requests, after one holder of a tag passed its checks a later one passes exactly when no step between the two reads touched the row. |
| EditRaces.LaterHolderPassesIffBeforeTheWrite | backend/app/services/expense_service.py:203-227 | When nobody else touches the row: exactly when its read comes before the first one's write. |
| EditRaces.FieldsHoldTheLastWrite | backend/app/services/expense_service.py:208-229 | Whatever overlaps, each field of a row holds what the last request that changed that field wrote. |
| EditRaces.OverlappingEditsAllTeach | backend/app/services/expense_service.py:212-264 | Overlapping edits teach as they would one after another: the last write's category, and none lost from the count. |
| EditRaces.BothHoldersSucceed | backend/app/services/expense_service.py:203-229 | Two holders that both read and then both write: both answers, the merged row, the two corrections. |
| OAuthState.EnvelopeFields | backend/app/services/gmail_oauth_service.py:118-127 | The envelope splits into user, the fields of the nonce, time and digest. |
| OAuthState.SignedStateVerifiesIff | backend/app/services/gmail_oauth_service.py:130-166 | A signed state yields its user exactly when the nonce has no dot and the clock is within 600 seconds, and otherwise which error (section 10.12 of RFC 6749). |
| OAuthState.WrongDigestFails | backend/app/services/gmail_oauth_service.py:137-148 | Three fields under any other digest are refused; by an exception of the wrong kind if that digest is not ASCII. |
| OAuthState.AcceptedStateIsSigned | backend/app/services/gmail_oauth_service.py:137-148 | Any accepted text ends in the digest of its three leading fields. |
| OptimisticCache.ApplyPatch | frontend/src/api/expenses.ts:190-203 | The loop overlays the patch. |
| OptimisticCache.OverlayWritesTheDefined | frontend/src/api/expenses.ts:192-196 | Exactly the defined entries are written. |
| OptimisticCache.QueryCache.OnMutate | frontend/src/api/expenses.ts:143-164 | The loop over queries, pages and rows: every query keeps its pages and cursors; each row then shown was there before, changed only if it is the edited one, and never the deleted one; what is remembered is enough to restore the cache. |
| OptimisticCache.QueryCache.OnError | frontend/src/api/expenses.ts:165-170 | Remembered queries with data are written back, all others stay. |
| OptimisticCache.RollbackRestores | frontend/src/api/expenses.ts:143-170 | A failed mutation leaves the cache as it was. |
| OptimisticCache.EditTouchesOneRow | frontend/src/api/expenses.ts:154-159 | An edit keeps pages and rows in place and changes only the row with its id. |
| OptimisticCache.DropIsAFilter | frontend/src/api/expenses.ts:220-223 | A delete removes exactly the rows with its id. |
| OptimisticCache.DropKeepsOrder | frontend/src/api/expenses.ts:220-223 | The rows it leaves keep their order. |
| OptimisticCache.EditsOfDifferentRowsCommute | frontend/src/api/expenses.ts:148-162 | Edits of two rows may be applied in either order. |
| OptimisticCache.OverlapIsNotIsolated | frontend/src/api/expenses.ts:165-173 | With two mutations in flight the first's roll-back wipes the second's change, and the second's brings the first's back. |

## Left out

- Network and library internals: Google's API, S3, Redis, Tesseract, poppler, Pillow, OpenAI, password and token
  cryptography. Their results are inputs.
- Resolving the user from a forwarding address, webhook signatures, account, connection and budget CRUD, HTTP routes,
  schemas, settings, logging, migrations, pages and components.
- The static rule table: `lookup_rule` is any function. Magic bytes: an attachment sniffs or it does not. Storage
  keys: always fresh.
- Mailbox connections share one mailbox log; removing a connection or a user is not modelled.
- Day arithmetic of the anomaly windows: the two start days are inputs.
- Column-level dirty tracking of the ORM: interleaved tasks write only a status; payload, error and OCR method are
  followed one call at a time. `raw_text` and `ocr_confidence` are not followed.
- Column widths other than an expense's merchant name and amount; overflow and underflow of doubles, which no value
  here comes near.
- Machine.CoversHistory: an assumption, not a result. The provider's pages name every message added after the start
  id up to the mailbox head.
- Cursor.UncaughtIff: the decoder reads JSON objects whose members are strings without escapes, unsigned whole
  numbers, truth values and null, without blanks; other JSON that the library accepts is treated as malformed, so
  other ids without text (a list, a fraction) escape in the code but not here.
- Calendar.IsoRoundTrip: the parser reads YYYY-MM-DD only; the other ISO forms the library reads are treated as
  malformed.
- Uuid.RoundTrip: the parser does not read braces or a URN prefix.
- Pagination.PagesAreTheSortedList: ILIKE patterns are modelled without the backslash escape and with ASCII case.
- OAuthState.SignedStateVerifiesIff: integer text is an optional sign and decimal digits; blanks and underscores that
  the library accepts are treated as malformed, and never occur in a signed state.
- Anomalies.RoundedRoot: the deviation is the exact square root rounded once; the database rounds a long decimal
  expansion of it.
- ReceiptParser.MatchesExactlyAmounts: digits, word characters and blanks are ASCII.
- Payload.StoredRoundTrip: totals are non-negative amounts of two decimals, as the text parser makes them; the vision
  model may also yield other decimals, negative ones or NaN.
- Payload.TextToExpense: the date patterns are not modelled, their result is an input; a stored total is read only
  in the form the parser prints, and currency and line items are not followed.
- EditRaces.BothHoldersSucceed: an answer is the row as its own write left it; the code reads the row again after the
  commit and may answer with a later version.
- ExpenseStore.AtMostOneWinsPerTag: tags are taken as injective in id and version, and every write as later than the
  ones before; truncated digests and clock ties are not modelled.
- Backend.Service.DeliverEmail: the recipient is already resolved to a user.
- OptimisticCache.QueryCache.OnMutate: cancelling the running fetches is not modelled; the keys come in some order.
