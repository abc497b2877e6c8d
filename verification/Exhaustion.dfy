/** What becomes of a receipt whose categorising is given up. */
module Exhaustion {
  import opened Domain
  import opened Machine
  import opened Progress
  import opened Shapes

  /** A categorise statement writes nothing, or it writes categorised: when its insert goes through, or
      when it corrects the status beside an existing expense. It never marks the receipt failed. */
  lemma {:induction false} CategoriseWritesIff(db: Database, t: Task, out: Outcome)
    requires t.kind == Categorise && WellKinded(t)
    ensures
      var written := Decide(db, t, out).write;
      && (written == None || written == Some(Status.Categorised))
      && (written == Some(Status.Categorised) <==>
            Applied(out) && t.receipt in db.rows && (t.stage.Fixing? || (t.stage.Ready? && !HasExpense(db, t.receipt))))
  {
  }

  /** The status an event writes to a row, if any. */
  function Written(s: State, e: Event, id: ReceiptId): Option<Status> {
    match e
    case RunTask(i, out) =>
      if i < |s.tasks| && s.tasks[i].receipt == id then Decide(s.db, s.tasks[i], out).write else None
    case RunRetry(i, out) =>
      if i < |s.retries| && s.retries[i].receipt == id && s.retries[i].stage == Resetting && Applied(out)
      then Some(Status.Uploaded) else None
    case _ => None
  }

  /** The last status a run of events wrote to the row. */
  function LastWritten(s: State, events: seq<Event>, id: ReceiptId): Option<Status> {
    if events == [] then None
    else
      var init, last := events[..|events| - 1], events[|events| - 1];
      match Written(Run(s, init), last, id)
      case Some(status) => Some(status)
      case None => LastWritten(s, init, id)
  }

  function Overwritten(before: Status, written: Option<Status>): Status {
    match written
    case Some(status) => status
    case None => before
  }

  /** No other event touches a status: a row that is still there after an event was there before, and its
      status is what the event wrote or what it was. */
  predicate StatusFollows(s: State, s': State, id: ReceiptId, written: Option<Status>) {
    && s.db.nextRow <= s'.db.nextRow
    && (id < s.db.nextRow && id in s'.db.rows ==>
          id in s.db.rows && s'.db.rows[id].status == Overwritten(s.db.rows[id].status, written))
  }

  lemma WorkerWrites(s: State, i: nat, out: Outcome, id: ReceiptId)
    ensures StatusFollows(s, Next(s, RunTask(i, out)), id, Written(s, RunTask(i, out), id))
  {
    if i < |s.tasks| { WorkerShape(s, i, out); }
  }

  lemma RetryWrites(s: State, i: nat, out: Outcome, id: ReceiptId)
    ensures StatusFollows(s, Next(s, RunRetry(i, out)), id, Written(s, RunRetry(i, out), id))
  {
  }

  lemma IngestWrites(s: State, e: Event, id: ReceiptId)
    requires e.RunIngest? || e.IngestDies?
    ensures StatusFollows(s, Next(s, e), id, None)
  {
  }

  lemma RestWritesNothing(s: State, e: Event, id: ReceiptId)
    requires !e.RunTask? && !e.RunRetry? && !e.RunIngest? && !e.IngestDies?
    ensures StatusFollows(s, Next(s, e), id, None)
  {
    if Outside(e) {
      OutsideShape(s, e);
    } else {
      match e
      case RunDeletion(_, _) => DeletionShape(s, e);
      case DeletionDies(_) => DeletionShape(s, e);
      case RunSync(i, out, answer) => if i < |s.syncs| { SyncShape(s, i, out, answer); }
      case _ =>
    }
  }

  lemma NextWrites(s: State, e: Event, id: ReceiptId)
    ensures StatusFollows(s, Next(s, e), id, Written(s, e, id))
  {
    hide Next, StatusFollows;
    match e
    case RunTask(i, out) => WorkerWrites(s, i, out, id);
    case RunRetry(i, out) => RetryWrites(s, i, out, id);
    case RunIngest(_, _) => IngestWrites(s, e, id);
    case IngestDies(_) => IngestWrites(s, e, id);
    case _ => RestWritesNothing(s, e, id);
  }

  /** Over any run from any state: a row's status is the last one written, or the one it started with. */
  lemma {:induction false} StatusIsLastWritten(s: State, events: seq<Event>, id: ReceiptId)
    ensures StatusFollows(s, Run(s, events), id, LastWritten(s, events, id))
  {
    hide Next, Written;
    if events != [] {
      var init, last := events[..|events| - 1], events[|events| - 1];
      StatusIsLastWritten(s, init, id);
      NextWrites(Run(s, init), last, id);
    }
  }

  /** The event is the categorise task's last statement: its retries are spent. */
  predicate GivesUp(s: State, i: nat, out: Outcome) {
    && i < |s.tasks| && s.tasks[i].kind == Categorise && !Over(s.tasks[i].stage)
    && Next(s, RunTask(i, out)).tasks[i].stage.Exhausted?
  }

  /** The last statement took effect although it raised. */
  predicate TookEffect(s: State, i: nat, out: Outcome)
    requires i < |s.tasks|
  {
    && out == AppliedButFails && s.tasks[i].receipt in s.db.rows
    && (s.tasks[i].stage.Fixing? || (s.tasks[i].stage.Ready? && !HasExpense(s.db, s.tasks[i].receipt)))
  }

  lemma GivingUpWrites(s: State, i: nat, out: Outcome)
    requires GivesUp(s, i, out) && WellKinded(s.tasks[i])
    ensures Written(s, RunTask(i, out), s.tasks[i].receipt)
         == if TookEffect(s, i, out) then Some(Status.Categorised) else None
  {
    CategoriseWritesIff(s.db, s.tasks[i], out);
  }

  /** Giving up, over every run and whatever follows it. The receipt's status afterwards is the last one
      that somebody else wrote since; if nobody did, it is categorised when the last commit took effect
      unacknowledged, and otherwise what it was before. So it is parsed, with nothing to move it, exactly
      when it was parsed, that commit did not take effect, and nobody wrote since, or the last to write
      since wrote parsed. */
  lemma {:induction false} StatusAfterGivingUp(past: seq<Event>, i: nat, out: Outcome, more: seq<Event>)
    requires GivesUp(Run(INITIAL, past), i, out)
    ensures
      var s := Run(INITIAL, past);
      var s' := Next(s, RunTask(i, out));
      var id, end := s.tasks[i].receipt, Run(INITIAL, past + [RunTask(i, out)] + more);
      id in end.db.rows ==>
        && id in s.db.rows
        && end.db.rows[id].status ==
             (match LastWritten(s', more, id)
              case Some(status) => status
              case None => if TookEffect(s, i, out) then Status.Categorised else s.db.rows[id].status)
        && (end.db.rows[id].status == Status.Parsed <==>
              || LastWritten(s', more, id) == Some(Status.Parsed)
              || (LastWritten(s', more, id) == None && s.db.rows[id].status == Status.Parsed && !TookEffect(s, i, out)))
  {
    hide Next, Run, LastWritten, Written, StatusFollows, GivesUp, TookEffect, ProgressInv;
    var s, e := Run(INITIAL, past), RunTask(i, out);
    RunSnoc(INITIAL, past, e);
    RunConcat(INITIAL, past + [e], more);
    GivingUpIsKnown(past, i, out);
    GivingUpWrites(s, i, out);
    NextWrites(s, e, s.tasks[i].receipt);
    StatusIsLastWritten(Next(s, e), more, s.tasks[i].receipt);
    var id := s.tasks[i].receipt;
    Compose(s, Next(s, e), Run(Next(s, e), more), id, Written(s, e, id), LastWritten(Next(s, e), more, id));
  }

  lemma GivingUpIsKnown(past: seq<Event>, i: nat, out: Outcome)
    requires GivesUp(Run(INITIAL, past), i, out)
    ensures
      var s := Run(INITIAL, past);
      i < |s.tasks| && WellKinded(s.tasks[i]) && s.tasks[i].receipt < s.db.nextRow
  {
    hide Run, Next;
    Progress.RunKeepsInv(past);
  }

  lemma Compose(a: State, b: State, c: State, id: ReceiptId, first: Option<Status>, second: Option<Status>)
    requires StatusFollows(a, b, id, first) && StatusFollows(b, c, id, second) && id < a.db.nextRow
    ensures id in c.db.rows ==>
      && id in a.db.rows && c.db.rows[id].status == Overwritten(Overwritten(a.db.rows[id].status, first), second)
  {
  }
}
