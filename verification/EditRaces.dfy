/** Requests on expenses that overlap. A request reads and checks its row in one step and writes it in
    another; nothing locks the row in between. The write carries only the columns the request changed,
    and the database merges them into whatever the row has become. */
module EditRaces {
  import opened Domain
  import Calendar
  import opened ExpenseStore

  // A request that has read its row holds a copy of it. Broken is an answer of the row having gone.
  datatype Session = Waiting | Editing(before: Row) | Answered(reply: Reply) | Broken

  datatype World = World(store: Store, sessions: map<nat, Session>)

  datatype Step = Begin(i: nat) | Write(i: nat)

  function SessionOf(w: World, i: nat): Session {
    if i in w.sessions then w.sessions[i] else Waiting
  }

  function RowOf(w: World, id: ExpenseId): Option<Row> {
    if id in w.store.rows then Some(w.store.rows[id]) else None
  }

  /** The UPDATE statement: the columns that differ from the copy, onto the present row. */
  function Merge(before: Row, after: Row, now: Row): Row {
    Row(
      now.owner,
      if after.merchant != before.merchant then after.merchant else now.merchant,
      if after.amount != before.amount then after.amount else now.amount,
      if after.category != before.category then after.category else now.category,
      if after.date != before.date then after.date else now.date,
      if after.description != before.description then after.description else now.description,
      now.updatedAt)
  }

  /** Reading the row and checking its owner and its tag. A create has nothing to read. */
  function Read(tag: Tag, q: Request, s: Store): (Store, Session) {
    if q.Create? then
      var (after, reply) := Apply(tag, s, q);
      (after, Answered(reply))
    else
      match Check(tag, s, q.user, q.id, q.ifMatch)
      case Some(reply) => (s, Answered(reply))
      case None => (s, Editing(s.rows[q.id]))
  }

  /** Writing and committing. The row and the correction are one transaction. */
  function Commit(q: Request, before: Row, s: Store): (Store, Session) {
    match q
    case Create(_, _) => (s, Broken)
    case Delete(_, id, _) => (s.(rows := s.rows - {id}, clock := s.clock + 1), Answered(Removed))
    case Update(user, id, patch, _) =>
      var after := Patched(before, patch);
      if id !in s.rows then (s, Broken)
      else if after == before then (s, Answered(Saved(s.rows[id])))
      else
        var saved := Merge(before, after, s.rows[id]).(updatedAt := s.clock + 1);
        (s.(rows := s.rows[id := saved],
            corrections := Learn(s.corrections, user, before, after),
            clock := s.clock + 1),
         Answered(Saved(saved)))
  }

  function Next(tag: Tag, requests: seq<Request>, w: World, step: Step): World {
    if step.i >= |requests| then w
    else
      match (step, SessionOf(w, step.i))
      case (Begin(i), Waiting) =>
        var (store, session) := Read(tag, requests[i], w.store);
        World(store, w.sessions[i := session])
      case (Write(i), Editing(before)) =>
        var (store, session) := Commit(requests[i], before, w.store);
        World(store, w.sessions[i := session])
      case _ => w
  }

  /** The world after the steps. */
  function Play(tag: Tag, requests: seq<Request>, w: World, steps: seq<Step>): World {
    if steps == [] then w
    else Next(tag, requests, Play(tag, requests, w, steps[..|steps| - 1]), steps[|steps| - 1])
  }

  // ----- one after another --------------------------------------------------

  /** A request that writes right after it read does what `Apply` says. */
  lemma {:induction false} UndisturbedIsApply(tag: Tag, requests: seq<Request>, w: World, i: nat)
    requires i < |requests| && SessionOf(w, i) == Waiting
    ensures
      var after := Next(tag, requests, Next(tag, requests, w, Begin(i)), Write(i));
      after.store == Apply(tag, w.store, requests[i]).0
      && SessionOf(after, i) == Answered(Apply(tag, w.store, requests[i]).1)
  {
    var q := requests[i];
    if q.Update? && Check(tag, w.store, q.user, q.id, q.ifMatch).None? {
      PatchKeepsVersion(w.store.rows[q.id], q.patch);
    }
  }

  lemma OthersWait(tag: Tag, requests: seq<Request>, w: World, step: Step)
    ensures forall i | i != step.i :: SessionOf(Next(tag, requests, w, step), i) == SessionOf(w, i)
  {
  }

  /** The first n requests, one after another. */
  function Serially(n: nat): seq<Step> {
    if n == 0 then [] else Serially(n - 1) + [Begin(n - 1), Write(n - 1)]
  }

  /** Requests that do not overlap are the runs of the store. */
  lemma {:induction false} SerialIsRun(tag: Tag, requests: seq<Request>, s: Store, n: nat)
    requires n <= |requests|
    ensures
      var w := Play(tag, requests, World(s, map[]), Serially(n));
      w.store == Run(tag, s, requests[..n]) && forall i: nat | i >= n :: SessionOf(w, i) == Waiting
  {
    if n != 0 {
      hide Next;
      var before := Serially(n - 1);
      SerialIsRun(tag, requests, s, n - 1);
      PlayOneMore(tag, requests, World(s, map[]), before, Begin(n - 1));
      PlayOneMore(tag, requests, World(s, map[]), before + [Begin(n - 1)], Write(n - 1));
      assert Serially(n) == before + [Begin(n - 1)] + [Write(n - 1)];
      assert requests[..n][..n - 1] == requests[..n - 1];
      var w := Play(tag, requests, World(s, map[]), before);
      UndisturbedIsApply(tag, requests, w, n - 1);
      OthersWait(tag, requests, w, Begin(n - 1));
      OthersWait(tag, requests, Next(tag, requests, w, Begin(n - 1)), Write(n - 1));
    }
  }

  // ----- versions -----------------------------------------------------------

  /** What time does to a store: ids and the clock go forward, rows stay, change with a later stamp, or
      are gone for good. */
  ghost predicate Evolves(s: Store, t: Store) {
    && s.nextId <= t.nextId && s.clock <= t.clock
    && forall id | id < s.nextId && id in t.rows ::
         id in s.rows && (t.rows[id] == s.rows[id] || t.rows[id].updatedAt > s.clock)
  }

  lemma NextEvolves(tag: Tag, requests: seq<Request>, w: World, step: Step)
    requires Timed(w.store)
    ensures
      var after := Next(tag, requests, w, step);
      Timed(after.store) && Evolves(w.store, after.store)
  {
  }

  lemma EvolvesTransitively(s: Store, t: Store, u: Store)
    requires Evolves(s, t) && Evolves(t, u)
    ensures Evolves(s, u)
  {
  }

  /** The world before step k. */
  function At(tag: Tag, requests: seq<Request>, w: World, steps: seq<Step>, k: nat): World
    requires k <= |steps|
  {
    Play(tag, requests, w, steps[..k])
  }

  lemma AtNext(tag: Tag, requests: seq<Request>, w: World, steps: seq<Step>, k: nat)
    requires k < |steps|
    ensures At(tag, requests, w, steps, k + 1) == Next(tag, requests, At(tag, requests, w, steps, k), steps[k])
  {
    assert steps[..k + 1][..k] == steps[..k];
  }

  lemma {:induction false} PlayIsTimed(tag: Tag, requests: seq<Request>, w: World, steps: seq<Step>)
    requires Timed(w.store)
    ensures Timed(Play(tag, requests, w, steps).store)
  {
    if steps != [] {
      hide Next, Timed;
      var init := steps[..|steps| - 1];
      PlayIsTimed(tag, requests, w, init);
      NextEvolves(tag, requests, Play(tag, requests, w, init), steps[|steps| - 1]);
    }
  }

  lemma {:induction false} RunsEvolve(tag: Tag, requests: seq<Request>, w: World, steps: seq<Step>, i: nat, j: nat)
    requires Timed(w.store) && i <= j <= |steps|
    ensures Evolves(At(tag, requests, w, steps, i).store, At(tag, requests, w, steps, j).store)
    decreases j
  {
    if i < j {
      RunsEvolve(tag, requests, w, steps, i, j - 1);
      AtNext(tag, requests, w, steps, j - 1);
      var before := At(tag, requests, w, steps, j - 1);
      PlayIsTimed(tag, requests, w, steps[..j - 1]);
      NextEvolves(tag, requests, before, steps[j - 1]);
      hide *;
      EvolvesTransitively(
        At(tag, requests, w, steps, i).store, before.store, At(tag, requests, w, steps, j).store);
    }
  }

  /** Step k leaves the row different, or gone. */
  predicate Touches(tag: Tag, requests: seq<Request>, w: World, steps: seq<Step>, k: nat, id: ExpenseId)
    requires k < |steps|
  {
    RowOf(At(tag, requests, w, steps, k + 1), id) != RowOf(At(tag, requests, w, steps, k), id)
  }

  /** A version that was left never comes back: a row is as it was exactly when no step in between
      touched it. */
  lemma {:induction false} SameVersionIff(
    tag: Tag, requests: seq<Request>, w: World, steps: seq<Step>, i: nat, j: nat, id: ExpenseId)
    requires Timed(w.store) && i <= j <= |steps| && id in At(tag, requests, w, steps, i).store.rows
    ensures RowOf(At(tag, requests, w, steps, j), id) == RowOf(At(tag, requests, w, steps, i), id)
      <==> forall k | i <= k < j :: !Touches(tag, requests, w, steps, k, id)
    decreases j
  {
    if i < j {
      SameVersionIff(tag, requests, w, steps, i, j - 1, id);
      OneMoreStep(tag, requests, w, steps, i, j - 1, id);
      hide At, RowOf;
    }
  }

  lemma OneMoreStep(tag: Tag, requests: seq<Request>, w: World, steps: seq<Step>, i: nat, j: nat, id: ExpenseId)
    requires Timed(w.store) && i <= j < |steps| && id in At(tag, requests, w, steps, i).store.rows
    ensures RowOf(At(tag, requests, w, steps, j + 1), id) == RowOf(At(tag, requests, w, steps, i), id)
      <==> RowOf(At(tag, requests, w, steps, j), id) == RowOf(At(tag, requests, w, steps, i), id)
           && !Touches(tag, requests, w, steps, j, id)
  {
    hide At, RowOf, Evolves, Timed;
    var first, last, end :=
      At(tag, requests, w, steps, i), At(tag, requests, w, steps, j), At(tag, requests, w, steps, j + 1);
    RunsEvolve(tag, requests, w, steps, i, j);
    RunsEvolve(tag, requests, w, steps, j, j + 1);
    StaysTimed(tag, requests, w, steps, i);
    if RowOf(last, id) != RowOf(first, id) {
      NeverBack(first, last, end, id);
    }
  }

  lemma StaysTimed(tag: Tag, requests: seq<Request>, w: World, steps: seq<Step>, k: nat)
    requires Timed(w.store) && k <= |steps|
    ensures Timed(At(tag, requests, w, steps, k).store)
  {
    PlayIsTimed(tag, requests, w, steps[..k]);
  }

  lemma NeverBack(first: World, middle: World, last: World, id: ExpenseId)
    requires Timed(first.store) && id in first.store.rows
    requires Evolves(first.store, middle.store) && Evolves(middle.store, last.store)
    requires RowOf(middle, id) != RowOf(first, id)
    ensures RowOf(last, id) != RowOf(first, id)
  {
  }

  // ----- two holders of one tag ---------------------------------------------

  /** The request asks for the row under this tag. */
  predicate Holds(q: Request, user: UserId, id: ExpenseId, g: string) {
    !q.Create? && q.user == user && q.id == id && q.ifMatch == Some(g)
  }

  /** Step k is the read of request a, and the checks let it through. */
  predicate Passes(tag: Tag, requests: seq<Request>, w: World, steps: seq<Step>, k: nat, a: nat)
    requires k < |steps|
  {
    && a < |requests| && steps[k] == Begin(a) && SessionOf(At(tag, requests, w, steps, k), a) == Waiting
    && SessionOf(At(tag, requests, w, steps, k + 1), a).Editing?
  }

  /** Step k is the read of request a, whatever comes of it. */
  predicate Reads(tag: Tag, requests: seq<Request>, w: World, steps: seq<Step>, k: nat, a: nat)
    requires k < |steps|
  {
    a < |requests| && steps[k] == Begin(a) && SessionOf(At(tag, requests, w, steps, k), a) == Waiting
  }

  /** In any interleaving of any requests: after one holder of a tag has passed its checks, a later
      one passes exactly when no step between the two reads touched the row. */
  lemma {:induction false} LaterHolderPassesIff(
    tag: Tag, requests: seq<Request>, w: World, steps: seq<Step>, i: nat, j: nat, a: nat, b: nat,
    user: UserId, id: ExpenseId, g: string)
    requires Injective(tag) && Timed(w.store) && i < j < |steps|
    requires Passes(tag, requests, w, steps, i, a) && Reads(tag, requests, w, steps, j, b)
    requires Holds(requests[a], user, id, g) && Holds(requests[b], user, id, g)
    ensures Passes(tag, requests, w, steps, j, b)
      <==> forall k | i < k < j :: !Touches(tag, requests, w, steps, k, id)
  {
    var first, second := At(tag, requests, w, steps, i), At(tag, requests, w, steps, j);
    AtNext(tag, requests, w, steps, i);
    AtNext(tag, requests, w, steps, j);
    RunsEvolve(tag, requests, w, steps, i, j);
    StaysTimed(tag, requests, w, steps, i);
    SameVersionIff(tag, requests, w, steps, i, j, id);
    hide At;
    assert !Touches(tag, requests, w, steps, i, id);
  }

  /** When nothing else touches the row: the second holder of a tag passes exactly when its read comes
      before the first one's write. */
  lemma {:induction false} LaterHolderPassesIffBeforeTheWrite(
    tag: Tag, requests: seq<Request>, w: World, steps: seq<Step>, i: nat, j: nat, a: nat, b: nat,
    user: UserId, id: ExpenseId, g: string)
    requires Injective(tag) && Timed(w.store) && i < j < |steps|
    requires Passes(tag, requests, w, steps, i, a) && Reads(tag, requests, w, steps, j, b)
    requires Holds(requests[a], user, id, g) && Holds(requests[b], user, id, g)
    requires ChangesARow(tag, At(tag, requests, w, steps, i).store, requests[a])
    requires forall k | i < k < j && Touches(tag, requests, w, steps, k, id) :: steps[k] == Write(a)
    ensures Passes(tag, requests, w, steps, j, b) <==> forall k | i < k < j :: steps[k] != Write(a)
  {
    LaterHolderPassesIff(tag, requests, w, steps, i, j, a, b, user, id, g);
    if k :| i < k < j && steps[k] == Write(a) {
      SomeWriteTouches(tag, requests, w, steps, i, k, a, id);
    }
  }

  /** By the time it wrote, a write that changes something touched the row, or somebody did before. */
  lemma {:induction false} SomeWriteTouches(
    tag: Tag, requests: seq<Request>, w: World, steps: seq<Step>, i: nat, j: nat, a: nat, id: ExpenseId)
    requires Timed(w.store) && i < j < |steps| && Passes(tag, requests, w, steps, i, a) && steps[j] == Write(a)
    requires !requests[a].Create? && requests[a].id == id
    requires ChangesARow(tag, At(tag, requests, w, steps, i).store, requests[a])
    ensures exists k :: i < k <= j && Touches(tag, requests, w, steps, k, id)
    decreases j
  {
    if k :| i < k < j && steps[k] == Write(a) {
      SomeWriteTouches(tag, requests, w, steps, i, k, a, id);
    } else if k :| i < k < j && Touches(tag, requests, w, steps, k, id) {
    } else {
      AtNext(tag, requests, w, steps, i);
      SessionKeeps(tag, requests, w, steps, i + 1, j, a);
      AtNext(tag, requests, w, steps, j);
      SameVersionIff(tag, requests, w, steps, i, j, id);
      assert !Touches(tag, requests, w, steps, i, id);
      StaysTimed(tag, requests, w, steps, j);
      WriteTouches(requests[a], At(tag, requests, w, steps, i).store, At(tag, requests, w, steps, j).store, tag);
      assert Touches(tag, requests, w, steps, j, id);
    }
  }

  lemma WriteTouches(q: Request, s: Store, t: Store, tag: Tag)
    requires !q.Create? && Timed(t) && q.id in s.rows && q.id in t.rows && s.rows[q.id] == t.rows[q.id]
    requires ChangesARow(tag, s, q)
    ensures
      var rows := Commit(q, s.rows[q.id], t).0.rows;
      q.id in rows ==> rows[q.id] != t.rows[q.id]
  {
    if q.Update? { PatchKeepsVersion(s.rows[q.id], q.patch); }
  }

  /** Only its own write moves a request that has read. */
  lemma {:induction false} SessionKeeps(
    tag: Tag, requests: seq<Request>, w: World, steps: seq<Step>, i: nat, j: nat, a: nat)
    requires i <= j <= |steps| && SessionOf(At(tag, requests, w, steps, i), a).Editing?
    requires forall k | i <= k < j :: steps[k] != Write(a)
    ensures SessionOf(At(tag, requests, w, steps, j), a) == SessionOf(At(tag, requests, w, steps, i), a)
    decreases j
  {
    if i < j {
      SessionKeeps(tag, requests, w, steps, i, j - 1, a);
      AtNext(tag, requests, w, steps, j - 1);
    }
  }

  // ----- what the row and the corrections hold afterwards -------------------

  /** The write this step performs, if it changes anything: the row's id, and the request's copy before
      and after its patch. */
  function Writing(requests: seq<Request>, w: World, step: Step): Option<(ExpenseId, Edit)> {
    if step.Begin? || step.i >= |requests| || !SessionOf(w, step.i).Editing? || !requests[step.i].Update? then None
    else
      var q, before := requests[step.i], SessionOf(w, step.i).before;
      if q.id in w.store.rows && Patched(before, q.patch) != before
      then Some((q.id, Edit(q.user, before, Patched(before, q.patch))))
      else None
  }

  datatype Field = Merchant | Amount | Kind | Day | Note

  datatype Value = Name(string) | Cents(int) | Label(Category) | On(Calendar.Date) | Free(Option<string>)

  function Get(row: Row, f: Field): Value {
    match f
    case Merchant => Name(row.merchant)
    case Amount => Cents(row.amount)
    case Kind => Label(row.category)
    case Day => On(row.date)
    case Note => Free(row.description)
  }

  /** What the last write that changed the field, seen from its own copy, put there. */
  function LastWritten(
    tag: Tag, requests: seq<Request>, w: World, steps: seq<Step>, id: ExpenseId, f: Field, first: Value): Value
  {
    if steps == [] then first
    else
      var init, last := steps[..|steps| - 1], steps[|steps| - 1];
      match Writing(requests, Play(tag, requests, w, init), last)
      case Some((written, edit)) =>
        if written == id && Get(edit.after, f) != Get(edit.before, f) then Get(edit.after, f)
        else LastWritten(tag, requests, w, init, id, f, first)
      case None => LastWritten(tag, requests, w, init, id, f, first)
  }

  /** Whatever overlaps, each field of a row holds what the last request that changed that field wrote:
      requests that change different fields both keep their change, and of two that change the same one
      the first loses it. */
  lemma {:induction false} FieldsHoldTheLastWrite(
    tag: Tag, requests: seq<Request>, w: World, steps: seq<Step>, id: ExpenseId, f: Field)
    requires Timed(w.store) && id in w.store.rows
    ensures
      var rows := Play(tag, requests, w, steps).store.rows;
      id in rows ==> Get(rows[id], f) == LastWritten(tag, requests, w, steps, id, f, Get(w.store.rows[id], f))
  {
    if steps != [] {
      var init, last := steps[..|steps| - 1], steps[|steps| - 1];
      FieldsHoldTheLastWrite(tag, requests, w, init, id, f);
      PlayIsTimed(tag, requests, w, init);
      RunsEvolve(tag, requests, w, init, 0, |init|);
      assert init[..0] == [] && init[..|init|] == init;
      StepWrites(tag, requests, Play(tag, requests, w, init), last, id, f);
      hide Next, Writing, Get;
    }
  }

  lemma StepWrites(tag: Tag, requests: seq<Request>, w: World, step: Step, id: ExpenseId, f: Field)
    requires Timed(w.store) && id < w.store.nextId
    ensures
      var rows, edit := Next(tag, requests, w, step).store.rows, Writing(requests, w, step);
      id in rows ==>
        && id in w.store.rows
        && Get(rows[id], f)
           == if edit.Some? && edit.value.0 == id && Get(edit.value.1.after, f) != Get(edit.value.1.before, f)
              then Get(edit.value.1.after, f) else Get(w.store.rows[id], f)
  {
  }

  /** The edits written, in the order of the writes. */
  function Written(tag: Tag, requests: seq<Request>, w: World, steps: seq<Step>): seq<Edit> {
    if steps == [] then []
    else
      var init, last := steps[..|steps| - 1], steps[|steps| - 1];
      Written(tag, requests, w, init)
      + match Writing(requests, Play(tag, requests, w, init), last) case Some((_, edit)) => [edit] case None => []
  }

  /** Overlapping edits teach what they would one after another: the last write decides the category,
      and none is lost from the count. */
  lemma {:induction false} OverlappingEditsAllTeach(
    tag: Tag, requests: seq<Request>, steps: seq<Step>, user: UserId, key: string)
    ensures
      var w := World(EMPTY, map[]);
      Remembers(Play(tag, requests, w, steps).store.corrections, Written(tag, requests, w, steps), user, key)
  {
    if steps != [] {
      var w, init, last := World(EMPTY, map[]), steps[..|steps| - 1], steps[|steps| - 1];
      OverlappingEditsAllTeach(tag, requests, init, user, key);
      StepTeaches(tag, requests, Play(tag, requests, w, init), last, Written(tag, requests, w, init), user, key);
      hide Next, Writing, Remembers;
      assert Written(tag, requests, w, init) + [] == Written(tag, requests, w, init);
    }
  }

  lemma StepTeaches(
    tag: Tag, requests: seq<Request>, w: World, step: Step, edits: seq<Edit>, user: UserId, key: string)
    requires Remembers(w.store.corrections, edits, user, key)
    ensures
      var edit := Writing(requests, w, step);
      Remembers(Next(tag, requests, w, step).store.corrections,
                if edit.Some? then edits + [edit.value.1] else edits, user, key)
  {
    var edit := Writing(requests, w, step);
    if edit.Some? {
      assert (edits + [edit.value.1])[..|edits|] == edits;
    }
  }

  /** One request's changes over another's over the original, at the time of the second write. */
  function Overlaid(row: Row, first: Row, second: Row, time: nat): Row {
    Merge(row, second, first).(updatedAt := time)
  }

  /** The race itself: two holders of one tag both read, then both write. Both are answered with
      success, and the row is the second's changes over the first's over the original. */
  lemma {:induction false} BothHoldersSucceed(
    tag: Tag, s: Store, a: Request, b: Request, user: UserId, id: ExpenseId, g: string)
    requires Timed(s) && a.Update? && b.Update? && Holds(a, user, id, g) && Holds(b, user, id, g)
    requires Check(tag, s, user, id, Some(g)).None?
    requires ChangesARow(tag, s, a) && ChangesARow(tag, s, b)
    ensures
      var row := s.rows[id];
      var mine, yours := Patched(row, a.patch), Patched(row, b.patch);
      var w := Play(tag, [a, b], World(s, map[]), [Begin(0), Begin(1), Write(0), Write(1)]);
      && w.store.rows == s.rows[id := Overlaid(row, mine, yours, s.clock + 2)]
      && w.store.corrections == Learn(Learn(s.corrections, user, row, mine), user, row, yours)
      && SessionOf(w, 0) == Answered(Saved(mine.(updatedAt := s.clock + 1)))
      && SessionOf(w, 1) == Answered(Saved(Overlaid(row, mine, yours, s.clock + 2)))
  {
    var q, row := [a, b], s.rows[id];
    FourSteps(tag, q, World(s, map[]), Begin(0), Begin(1), Write(0), Write(1));
    TwoCommits(tag, s, a, b, id);
    hide Commit, Patched, Learn, Merge, Apply, Play, ChangesARow, Overlaid;
    assert Read(tag, a, s) == (s, Editing(row)) && Read(tag, b, s) == (s, Editing(row));
  }

  lemma FourSteps(tag: Tag, requests: seq<Request>, w: World, a: Step, b: Step, c: Step, d: Step)
    ensures Play(tag, requests, w, [a, b, c, d])
      == Next(tag, requests, Next(tag, requests, Next(tag, requests, Next(tag, requests, w, a), b), c), d)
  {
    hide Next;
    PlayOneMore(tag, requests, w, [], a);
    PlayOneMore(tag, requests, w, [a], b);
    PlayOneMore(tag, requests, w, [a, b], c);
    PlayOneMore(tag, requests, w, [a, b, c], d);
    assert [] + [a] == [a] && [a] + [b] == [a, b] && [a, b] + [c] == [a, b, c] && [a, b, c] + [d] == [a, b, c, d];
  }

  lemma PlayOneMore(tag: Tag, requests: seq<Request>, w: World, steps: seq<Step>, step: Step)
    ensures Play(tag, requests, w, steps + [step]) == Next(tag, requests, Play(tag, requests, w, steps), step)
  {
    assert (steps + [step])[..|steps|] == steps;
  }

  lemma TwoCommits(tag: Tag, s: Store, a: Request, b: Request, id: ExpenseId)
    requires a.Update? && b.Update? && a.id == id == b.id && id in s.rows && a.user == b.user
    requires ChangesARow(tag, s, a) && ChangesARow(tag, s, b)
    ensures
      var row := s.rows[id];
      var mine, yours := Patched(row, a.patch), Patched(row, b.patch);
      var (first, one) := Commit(a, row, s);
      var (second, two) := Commit(b, row, first);
      && second.rows == s.rows[id := Overlaid(row, mine, yours, s.clock + 2)]
      && second.corrections == Learn(Learn(s.corrections, a.user, row, mine), b.user, row, yours)
      && one == Answered(Saved(mine.(updatedAt := s.clock + 1)))
      && two == Answered(Saved(Overlaid(row, mine, yours, s.clock + 2)))
  {
    hide Learn;
    PatchKeepsVersion(s.rows[id], a.patch);
  }

  // ----- what one step may change -------------------------------------------

  /** Every row but the stepping request's own stays exactly as it is. */
  lemma {:induction false} StepLeavesOthers(tag: Tag, requests: seq<Request>, w: World, step: Step, id: ExpenseId)
    requires step.i < |requests| ==> id != Target(w.store, requests[step.i])
    ensures RowOf(Next(tag, requests, w, step), id) == RowOf(w, id)
  {
  }

  /** The step writes a delete of this row. */
  predicate Deletes(requests: seq<Request>, w: World, step: Step, id: ExpenseId) {
    && step.Write? && step.i < |requests| && SessionOf(w, step.i).Editing?
    && requests[step.i].Delete? && requests[step.i].id == id
  }

  lemma {:induction false} StepDropsIff(tag: Tag, requests: seq<Request>, w: World, step: Step, id: ExpenseId)
    requires Timed(w.store) && id in w.store.rows
    ensures id !in Next(tag, requests, w, step).store.rows <==> Deletes(requests, w, step, id)
  {
  }

  /** A request that holds a copy may have it: the row is, or was, its user's. */
  ghost predicate SessionsAreTheirOwn(requests: seq<Request>, w: World) {
    forall i: nat | SessionOf(w, i).Editing? ::
      && i < |requests| && !requests[i].Create? && SessionOf(w, i).before.owner == requests[i].user
      && requests[i].id < w.store.nextId
      && (requests[i].id in w.store.rows ==> w.store.rows[requests[i].id].owner == requests[i].user)
  }

  lemma NextKeepsSessions(tag: Tag, requests: seq<Request>, w: World, step: Step)
    requires Timed(w.store) && SessionsAreTheirOwn(requests, w)
    ensures SessionsAreTheirOwn(requests, Next(tag, requests, w, step))
  {
    var after := Next(tag, requests, w, step);
    OthersWait(tag, requests, w, step);
    OwnersStay(tag, requests, w, step);
    forall i: nat | SessionOf(after, i).Editing?
      ensures i < |requests| && !requests[i].Create? && SessionOf(after, i).before.owner == requests[i].user
        && requests[i].id < after.store.nextId
        && (requests[i].id in after.store.rows ==> after.store.rows[requests[i].id].owner == requests[i].user)
    {
      if i != step.i { assert SessionOf(w, i).Editing?; }
    }
  }

  lemma OwnersStay(tag: Tag, requests: seq<Request>, w: World, step: Step)
    requires Timed(w.store)
    ensures
      var after := Next(tag, requests, w, step);
      && w.store.nextId <= after.store.nextId
      && forall id | id < w.store.nextId && id in after.store.rows ::
           id in w.store.rows && after.store.rows[id].owner == w.store.rows[id].owner
  {
  }

  lemma {:induction false} PlayKeepsSessions(tag: Tag, requests: seq<Request>, s: Store, steps: seq<Step>)
    requires Timed(s)
    ensures SessionsAreTheirOwn(requests, Play(tag, requests, World(s, map[]), steps))
  {
    if steps != [] {
      hide Next, SessionsAreTheirOwn;
      var init := steps[..|steps| - 1];
      PlayKeepsSessions(tag, requests, s, init);
      PlayIsTimed(tag, requests, World(s, map[]), init);
      NextKeepsSessions(tag, requests, Play(tag, requests, World(s, map[]), init), steps[|steps| - 1]);
    } else {
      NobodyEdits(requests, s);
    }
  }

  lemma NobodyEdits(requests: seq<Request>, s: Store)
    ensures SessionsAreTheirOwn(requests, World(s, map[]))
  {
  }

  /** A request that holds a copy read it at some step, and its checks let it through. */
  lemma {:induction false} EditingHasPassed(
    tag: Tag, requests: seq<Request>, s: Store, steps: seq<Step>, k: nat, a: nat)
    requires k <= |steps| && SessionOf(At(tag, requests, World(s, map[]), steps, k), a).Editing?
    ensures exists j: nat | j < k :: Passes(tag, requests, World(s, map[]), steps, j, a)
    decreases k
  {
    if k > 0 {
      AtNext(tag, requests, World(s, map[]), steps, k - 1);
      if SessionOf(At(tag, requests, World(s, map[]), steps, k - 1), a).Editing? {
        EditingHasPassed(tag, requests, s, steps, k - 1, a);
      } else {
        assert Passes(tag, requests, World(s, map[]), steps, k - 1, a);
      }
    }
  }

  /** In any interleaving a row disappears at a step exactly when the step writes a delete of it; and then the
      delete is its owner's, and passed its checks at an earlier step. */
  lemma {:induction false} RowDisappearsIff(
    tag: Tag, requests: seq<Request>, s: Store, steps: seq<Step>, k: nat, id: ExpenseId)
    requires Timed(s) && k < |steps| && id in At(tag, requests, World(s, map[]), steps, k).store.rows
    ensures
      var before := At(tag, requests, World(s, map[]), steps, k);
      && (id !in At(tag, requests, World(s, map[]), steps, k + 1).store.rows
          <==> Deletes(requests, before, steps[k], id))
      && (Deletes(requests, before, steps[k], id) ==>
            && before.store.rows[id].owner == requests[steps[k].i].user
            && exists j: nat | j < k :: Passes(tag, requests, World(s, map[]), steps, j, steps[k].i))
  {
    var w := World(s, map[]);
    var before := At(tag, requests, w, steps, k);
    AtNext(tag, requests, w, steps, k);
    StaysTimed(tag, requests, w, steps, k);
    StepDropsIff(tag, requests, before, steps[k], id);
    PlayKeepsSessions(tag, requests, s, steps[..k]);
    if Deletes(requests, before, steps[k], id) {
      EditingHasPassed(tag, requests, s, steps, k, steps[k].i);
    }
  }
}
