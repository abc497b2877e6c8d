/** Editing expenses: conditional requests, and the corrections learned from edits, one request
    after another. */
module ExpenseStore {
  import opened Domain
  import opened Calendar
  import opened Text

  datatype Row = Row(
    owner: UserId, merchant: string, amount: int, category: Category, date: Date, description: Option<string>,
    updatedAt: nat)

  datatype Correction = Correction(category: Category, count: nat)

  type Learned = map<(UserId, string), Correction>

  // `clock` is the time of the last write; every write is later than the ones before.
  datatype Store = Store(rows: map<ExpenseId, Row>, corrections: Learned, clock: nat, nextId: ExpenseId)

  const EMPTY: Store := Store(map[], map[], 0, 0)

  // The tag of a row's version.
  type Tag = (ExpenseId, nat) -> string

  ghost predicate Injective(tag: Tag) {
    forall a, t, b, u :: tag(a, t) == tag(b, u) ==> a == b && t == u
  }

  // ----- requests -----------------------------------------------------------

  // One entry of a partial update; a patch holds the fields that were set, in order.
  datatype Assignment =
    | SetMerchant(merchant: string)
    | SetAmount(amount: int)
    | SetCategory(category: Category)
    | SetDate(date: Date)
    | SetDescription(description: Option<string>)

  type Patch = seq<Assignment>

  datatype Request =
    | Create(user: UserId, fields: Row)
    | Update(user: UserId, id: ExpenseId, patch: Patch, ifMatch: Option<string>)
    | Delete(user: UserId, id: ExpenseId, ifMatch: Option<string>)

  datatype Reply = Saved(row: Row) | Removed | NotFound | Mismatch

  function Assign(row: Row, a: Assignment): Row {
    match a
    case SetMerchant(m) => row.(merchant := m)
    case SetAmount(n) => row.(amount := n)
    case SetCategory(c) => row.(category := c)
    case SetDate(d) => row.(date := d)
    case SetDescription(d) => row.(description := d)
  }

  function Patched(row: Row, patch: Patch): Row {
    if patch == [] then row else Assign(Patched(row, patch[..|patch| - 1]), patch[|patch| - 1])
  }

  function Normalise(merchant: string): string {
    LowerAll(Strip(merchant))
  }

  /** The upsert. */
  function Record(corrections: Learned, user: UserId, merchant: string, category: Category): Learned {
    var key := (user, Normalise(merchant));
    corrections[key := Correction(category, if key in corrections then corrections[key].count + 1 else 1)]
  }

  /** The two guards of a conditional request; None lets it through. */
  function Check(tag: Tag, s: Store, user: UserId, id: ExpenseId, ifMatch: Option<string>): (r: Option<Reply>)
    ensures r.None? ==> id in s.rows && s.rows[id].owner == user
  {
    if id !in s.rows || s.rows[id].owner != user then Some(NotFound)
    else if ifMatch.Some? && ifMatch.value != tag(id, s.rows[id].updatedAt) then Some(Mismatch)
    else None
  }

  /** What an edit teaches. */
  function Learn(corrections: Learned, user: UserId, before: Row, after: Row): Learned {
    if before.category != after.category && after.merchant != ""
    then Record(corrections, user, after.merchant, after.category)
    else corrections
  }

  /** Storing an edited row: an edit that changes nothing writes nothing. */
  function SaveEdit(s: Store, user: UserId, id: ExpenseId, after: Row): (Store, Reply)
    requires id in s.rows
  {
    var before := s.rows[id];
    if after == before then (s, Saved(before))
    else
      var saved := after.(updatedAt := s.clock + 1);
      (s.(rows := s.rows[id := saved], corrections := Learn(s.corrections, user, before, after), clock := s.clock + 1),
       Saved(saved))
  }

  function Apply(tag: Tag, s: Store, q: Request): (Store, Reply) {
    match q
    case Create(user, fields) =>
      var row := fields.(owner := user, updatedAt := s.clock + 1);
      (s.(rows := s.rows[s.nextId := row], clock := s.clock + 1, nextId := s.nextId + 1), Saved(row))
    case Update(user, id, patch, ifMatch) =>
      (match Check(tag, s, user, id, ifMatch)
       case Some(reply) => (s, reply)
       case None => SaveEdit(s, user, id, Patched(s.rows[id], patch)))
    case Delete(user, id, ifMatch) =>
      (match Check(tag, s, user, id, ifMatch)
       case Some(reply) => (s, reply)
       case None => (s.(rows := s.rows - {id}, clock := s.clock + 1), Removed))
  }

  function Run(tag: Tag, s: Store, requests: seq<Request>): Store {
    if requests == [] then s
    else Apply(tag, Run(tag, s, requests[..|requests| - 1]), requests[|requests| - 1]).0
  }

  /** Ids and versions are handed out in order. */
  predicate Timed(s: Store) {
    forall id <- s.rows :: id < s.nextId && s.rows[id].updatedAt <= s.clock
  }

  // ----- the service --------------------------------------------------------

  class ExpenseService {
    const tag: Tag
    var rows: map<ExpenseId, Row>
    var corrections: Learned
    var clock: nat
    var nextId: ExpenseId

    constructor (tag: Tag)
      ensures this.tag == tag && Contents() == EMPTY && Valid()
    {
      this.tag := tag;
      rows, corrections, clock, nextId := map[], map[], 0, 0;
    }

    function Contents(): Store
      reads this
    {
      Store(rows, corrections, clock, nextId)
    }

    predicate Valid()
      reads this
    {
      Timed(Contents())
    }

    method CreateExpense(user: UserId, fields: Row) returns (r: Reply)
      requires Valid()
      modifies this
      ensures (Contents(), r) == Apply(tag, old(Contents()), Create(user, fields))
      ensures Valid() && old(nextId) !in old(rows) && rows == old(rows)[old(nextId) := r.row]
    {
      clock := clock + 1;
      var row := fields.(owner := user, updatedAt := clock);
      rows := rows[nextId := row];
      nextId := nextId + 1;
      r := Saved(row);
    }

    method UpdateExpense(user: UserId, id: ExpenseId, patch: Patch, ifMatch: Option<string>) returns (r: Reply)
      requires Valid()
      modifies this
      ensures (Contents(), r) == Apply(tag, old(Contents()), Update(user, id, patch, ifMatch))
      ensures rows.Keys == old(rows).Keys && nextId == old(nextId)
      ensures forall other <- rows | other != id :: rows[other] == old(rows)[other]
      ensures
        r == if id !in old(rows) || old(rows)[id].owner != user then NotFound
             else if ifMatch.Some? && ifMatch.value != tag(id, old(rows)[id].updatedAt) then Mismatch
             else Saved(rows[id])
      ensures Valid()
    {
      if id !in rows || rows[id].owner != user { return NotFound; }
      var expense := rows[id];
      if ifMatch.Some? && ifMatch.value != tag(id, expense.updatedAt) { return Mismatch; }
      var oldCategory := expense.category;
      var categorySet := false;
      for k := 0 to |patch|
        invariant expense == Patched(rows[id], patch[..k])
        invariant !categorySet ==> expense.category == oldCategory
      {
        assert patch[..k + 1][..k] == patch[..k];
        categorySet := categorySet || patch[k].SetCategory?;
        expense := Assign(expense, patch[k]);
      }
      assert patch[..|patch|] == patch;
      PatchKeepsVersion(rows[id], patch);
      if categorySet && expense.category != oldCategory && expense.merchant != "" {
        RecordCorrection(user, expense.merchant, expense.category);
      }
      if expense != rows[id] {
        clock := clock + 1;
        expense := expense.(updatedAt := clock);
        rows := rows[id := expense];
      }
      r := Saved(expense);
    }

    method RecordCorrection(user: UserId, merchant: string, category: Category)
      modifies this`corrections
      ensures corrections == Record(old(corrections), user, merchant, category)
    {
      var key := (user, Normalise(merchant));
      if key in corrections {
        corrections := corrections[key := Correction(category, corrections[key].count + 1)];
      } else {
        corrections := corrections[key := Correction(category, 1)];
      }
    }

    method DeleteExpense(user: UserId, id: ExpenseId, ifMatch: Option<string>) returns (r: Reply)
      requires Valid()
      modifies this
      ensures (Contents(), r) == Apply(tag, old(Contents()), Delete(user, id, ifMatch))
      ensures
        r == if id !in old(rows) || old(rows)[id].owner != user then NotFound
             else if ifMatch.Some? && ifMatch.value != tag(id, old(rows)[id].updatedAt) then Mismatch
             else Removed
      ensures forall other :: other in rows <==> other in old(rows) && !(other == id && r == Removed)
      ensures forall other <- rows :: rows[other] == old(rows)[other]
      ensures corrections == old(corrections) && nextId == old(nextId)
      ensures Valid()
    {
      if id !in rows || rows[id].owner != user { return NotFound; }
      if ifMatch.Some? && ifMatch.value != tag(id, rows[id].updatedAt) { return Mismatch; }
      rows := rows - {id};
      clock := clock + 1;
      r := Removed;
    }
  }

  // ----- what one request may change ----------------------------------------

  /** The row a request is about. */
  function Target(s: Store, q: Request): ExpenseId {
    if q.Create? then s.nextId else q.id
  }

  /** The answer of a request on an existing row: who may, and with which tag. */
  lemma {:induction false} AnswerIff(tag: Tag, s: Store, q: Request)
    requires !q.Create?
    ensures
      var r := Apply(tag, s, q).1;
      && (r == NotFound <==> !(q.id in s.rows && s.rows[q.id].owner == q.user))
      && (r == Mismatch <==>
            && q.id in s.rows && s.rows[q.id].owner == q.user
            && q.ifMatch.Some? && q.ifMatch.value != tag(q.id, s.rows[q.id].updatedAt))
      && (r == Removed ==> q.Delete?) && (r.Saved? ==> q.Update?)
  {
  }

  /** Every row but the request's own stays exactly as it is. */
  lemma {:induction false} OthersStay(tag: Tag, s: Store, q: Request, id: ExpenseId)
    requires id != Target(s, q)
    ensures
      var rows := Apply(tag, s, q).0.rows;
      (id in rows <==> id in s.rows) && (id in rows ==> rows[id] == s.rows[id])
  {
  }

  /** A row goes exactly when its owner deletes it, under no tag or the right one. */
  lemma {:induction false} RowGoesIff(tag: Tag, s: Store, q: Request, id: ExpenseId)
    requires Timed(s) && id in s.rows
    ensures id !in Apply(tag, s, q).0.rows <==>
      && q.Delete? && q.id == id && s.rows[id].owner == q.user
      && (q.ifMatch.None? || q.ifMatch.value == tag(id, s.rows[id].updatedAt))
  {
  }

  /** A row comes exactly by a create, under an id never used, with the given fields and the caller as its
      owner; and it is what the caller is answered. */
  lemma {:induction false} RowComesIff(tag: Tag, s: Store, q: Request, id: ExpenseId)
    requires Timed(s) && id !in s.rows
    ensures
      var (after, reply) := Apply(tag, s, q);
      && (id in after.rows <==> q.Create? && id == s.nextId)
      && (id in after.rows ==>
            var row := after.rows[id];
            && row.owner == q.user && row.merchant == q.fields.merchant && row.amount == q.fields.amount
            && row.category == q.fields.category && row.date == q.fields.date
            && row.description == q.fields.description && reply == Saved(row))
  {
  }

  /** A saved answer is the row as stored. */
  lemma {:induction false} SavedIsStored(tag: Tag, s: Store, q: Request)
    ensures
      var (after, reply) := Apply(tag, s, q);
      reply.Saved? ==> Target(s, q) in after.rows && after.rows[Target(s, q)] == reply.row
  {
  }

  // ----- edits --------------------------------------------------------------

  /** Fields the patch does not set stay as they were. */
  lemma {:induction false} PatchSetsOnlyItsFields(row: Row, patch: Patch)
    ensures
      var after := Patched(row, patch);
      && ((forall i | 0 <= i < |patch| :: !patch[i].SetMerchant?) ==> after.merchant == row.merchant)
      && ((forall i | 0 <= i < |patch| :: !patch[i].SetAmount?) ==> after.amount == row.amount)
      && ((forall i | 0 <= i < |patch| :: !patch[i].SetCategory?) ==> after.category == row.category)
      && ((forall i | 0 <= i < |patch| :: !patch[i].SetDate?) ==> after.date == row.date)
      && ((forall i | 0 <= i < |patch| :: !patch[i].SetDescription?) ==> after.description == row.description)
  {
    if patch != [] { PatchSetsOnlyItsFields(row, patch[..|patch| - 1]); }
  }

  /** The last assignment of a patch sets its field to its value and nothing else. */
  lemma {:induction false} LastAssignmentWins(row: Row, patch: Patch, a: Assignment)
    ensures
      var before, after := Patched(row, patch), Patched(row, patch + [a]);
      && after.merchant == (if a.SetMerchant? then a.merchant else before.merchant)
      && after.amount == (if a.SetAmount? then a.amount else before.amount)
      && after.category == (if a.SetCategory? then a.category else before.category)
      && after.date == (if a.SetDate? then a.date else before.date)
      && after.description == (if a.SetDescription? then a.description else before.description)
  {
    assert (patch + [a])[..|patch|] == patch;
  }

  lemma {:induction false} PatchKeepsVersion(row: Row, patch: Patch)
    ensures Patched(row, patch).updatedAt == row.updatedAt && Patched(row, patch).owner == row.owner
  {
    if patch != [] { PatchKeepsVersion(row, patch[..|patch| - 1]); }
  }

  // What happened to a row, seen from outside.
  datatype Edit = Edit(user: UserId, before: Row, after: Row)

  /** The edits of a run: the row before and after each accepted update. */
  function Edits(tag: Tag, s: Store, requests: seq<Request>): seq<Edit> {
    if requests == [] then []
    else
      var init, q := requests[..|requests| - 1], requests[|requests| - 1];
      var before := Run(tag, s, init);
      var reply := Apply(tag, before, q).1;
      Edits(tag, s, init)
      + if q.Update? && q.id in before.rows && reply.Saved? then [Edit(q.user, before.rows[q.id], reply.row)] else []
  }

  /** The edit recategorised a merchant with this normal form. */
  predicate Teaches(e: Edit, user: UserId, key: string) {
    e.user == user && e.before.category != e.after.category && e.after.merchant != ""
      && Normalise(e.after.merchant) == key
  }

  function LastTaught(edits: seq<Edit>, user: UserId, key: string): Option<Category> {
    if edits == [] then None
    else if Teaches(edits[|edits| - 1], user, key) then Some(edits[|edits| - 1].after.category)
    else LastTaught(edits[..|edits| - 1], user, key)
  }

  function TimesTaught(edits: seq<Edit>, user: UserId, key: string): nat {
    if edits == [] then 0
    else TimesTaught(edits[..|edits| - 1], user, key) + if Teaches(edits[|edits| - 1], user, key) then 1 else 0
  }

  /** What the table holds for a merchant. */
  predicate Remembers(corrections: Learned, edits: seq<Edit>, user: UserId, key: string) {
    && ((user, key) in corrections <==> TimesTaught(edits, user, key) > 0)
    && ((user, key) in corrections ==>
          && corrections[(user, key)].count == TimesTaught(edits, user, key)
          && LastTaught(edits, user, key) == Some(corrections[(user, key)].category))
  }

  /** After any run of requests the correction stored for a merchant is the category of the last edit
      that changed it, its count is the number of such edits, and without one there is none. */
  lemma {:induction false} CorrectionsRememberTheLastEdit(
    tag: Tag, requests: seq<Request>, user: UserId, key: string)
    ensures Remembers(Run(tag, EMPTY, requests).corrections, Edits(tag, EMPTY, requests), user, key)
  {
    if requests != [] {
      var init, q := requests[..|requests| - 1], requests[|requests| - 1];
      CorrectionsRememberTheLastEdit(tag, init, user, key);
      var s, edits := Run(tag, EMPTY, init), Edits(tag, EMPTY, init);
      if q.Update? && Check(tag, s, q.user, q.id, q.ifMatch).None? {
        UpdateTeaches(tag, s, edits, q, user, key);
      } else {
        assert edits + [] == edits;
      }
    }
  }

  lemma UpdateTeaches(tag: Tag, s: Store, edits: seq<Edit>, q: Request, user: UserId, key: string)
    requires q.Update? && Check(tag, s, q.user, q.id, q.ifMatch).None?
    requires Remembers(s.corrections, edits, user, key)
    ensures
      var (after, reply) := Apply(tag, s, q);
      reply.Saved? && Remembers(after.corrections, edits + [Edit(q.user, s.rows[q.id], reply.row)], user, key)
  {
    var e := Edit(q.user, s.rows[q.id], Apply(tag, s, q).1.row);
    assert (edits + [e])[..|edits|] == edits;
    PatchKeepsVersion(s.rows[q.id], q.patch);
  }

  // ----- categorising -------------------------------------------------------

  /** The priority chain: correction, rule, classifier (asked only with a key), OTHER. */
  function CategoriseMerchant(
    corrections: Learned, user: UserId, merchant: Option<string>,
    lookupRule: string -> Option<Category>, hasKey: bool, classifier: Option<Category>): Category
  {
    if merchant.None? || merchant.value == "" then Other
    else
      var normalised := Normalise(merchant.value);
      if (user, normalised) in corrections then corrections[(user, normalised)].category
      else if lookupRule(normalised).Some? then lookupRule(normalised).value
      else if hasKey && classifier.Some? then classifier.value
      else Other
  }

  /** A fix is sticky: after any run, every spelling with the normal form of a taught merchant gets the
      category of the last edit, whatever the rules and the classifier say. */
  lemma {:induction false} FixesAreSticky(
    tag: Tag, requests: seq<Request>, user: UserId, merchant: string,
    lookupRule: string -> Option<Category>, hasKey: bool, classifier: Option<Category>)
    requires merchant != "" && LastTaught(Edits(tag, EMPTY, requests), user, Normalise(merchant)).Some?
    ensures CategoriseMerchant(
        Run(tag, EMPTY, requests).corrections, user, Some(merchant), lookupRule, hasKey, classifier)
      == LastTaught(Edits(tag, EMPTY, requests), user, Normalise(merchant)).value
  {
    var edits := Edits(tag, EMPTY, requests);
    CorrectionsRememberTheLastEdit(tag, requests, user, Normalise(merchant));
    TaughtAtLeastOnce(edits, user, Normalise(merchant));
  }

  /** A merchant nobody taught: the rule decides wherever it has an opinion, whatever the classifier would
      say and whether or not there is a key; the classifier only where there is no rule, a key is set and
      it answers; and OTHER is left. */
  lemma {:induction false} UntaughtFollowsTheRule(
    tag: Tag, requests: seq<Request>, user: UserId, merchant: string,
    lookupRule: string -> Option<Category>, hasKey: bool, classifier: Option<Category>)
    requires merchant != "" && LastTaught(Edits(tag, EMPTY, requests), user, Normalise(merchant)).None?
    ensures
      var c := CategoriseMerchant(
        Run(tag, EMPTY, requests).corrections, user, Some(merchant), lookupRule, hasKey, classifier);
      var rule := lookupRule(Normalise(merchant));
      && (rule.Some? ==> c == rule.value)
      && (rule.None? && hasKey && classifier.Some? ==> c == classifier.value)
      && (rule.None? && (!hasKey || classifier.None?) ==> c == Other)
  {
    CorrectionsRememberTheLastEdit(tag, requests, user, Normalise(merchant));
    TaughtAtLeastOnce(Edits(tag, EMPTY, requests), user, Normalise(merchant));
  }

  /** No merchant: OTHER, whatever else is known. */
  lemma {:induction false} NoMerchantIsOther(
    corrections: Learned, user: UserId, lookupRule: string -> Option<Category>, hasKey: bool,
    classifier: Option<Category>)
    ensures CategoriseMerchant(corrections, user, None, lookupRule, hasKey, classifier) == Other
    ensures CategoriseMerchant(corrections, user, Some(""), lookupRule, hasKey, classifier) == Other
  {
  }

  lemma {:induction false} TaughtAtLeastOnce(edits: seq<Edit>, user: UserId, key: string)
    ensures LastTaught(edits, user, key).Some? <==> TimesTaught(edits, user, key) > 0
  {
    if edits != [] { TaughtAtLeastOnce(edits[..|edits| - 1], user, key); }
  }

  /** Surrounding blanks and case do not matter. */
  lemma {:induction false} SpellingsShareANormalForm(merchant: string, left: string, right: string)
    requires forall i | 0 <= i < |left| :: IsSpace(left[i])
    requires forall i | 0 <= i < |right| :: IsSpace(right[i])
    ensures Normalise(left + merchant + right) == Normalise(merchant)
    ensures Normalise(LowerAll(merchant)) == Normalise(merchant)
  {
    StripBlanks(merchant, left, right);
    StripLower(merchant);
    LowerTwice(Strip(merchant));
  }

  /** What is trimmed and in lower case is its own normal form, so different such names stay different. */
  lemma {:induction false} NormalFormStays(merchant: string)
    requires LowerAll(merchant) == merchant
    requires merchant != "" ==> !IsSpace(merchant[0]) && !IsSpace(merchant[|merchant| - 1])
    ensures Normalise(merchant) == merchant
  {
  }

  lemma LowerTwice(s: string)
    ensures LowerAll(LowerAll(s)) == LowerAll(s)
  {
  }

  lemma {:induction false} StripLeftLower(s: string)
    ensures StripLeft(LowerAll(s)) == LowerAll(StripLeft(s))
  {
    if s != "" && IsSpace(s[0]) {
      assert LowerAll(s)[1..] == LowerAll(s[1..]);
      StripLeftLower(s[1..]);
    }
  }

  lemma {:induction false} StripRightLower(s: string)
    ensures StripRight(LowerAll(s)) == LowerAll(StripRight(s))
  {
    if s != "" && IsSpace(s[|s| - 1]) {
      assert LowerAll(s)[..|s| - 1] == LowerAll(s[..|s| - 1]);
      StripRightLower(s[..|s| - 1]);
    }
  }

  lemma StripLower(s: string)
    ensures Strip(LowerAll(s)) == LowerAll(Strip(s))
  {
    StripLeftLower(s);
    StripRightLower(StripLeft(s));
  }

  // ----- optimistic concurrency ---------------------------------------------

  lemma {:induction false} RunsAreTimed(tag: Tag, requests: seq<Request>)
    ensures Timed(Run(tag, EMPTY, requests))
  {
    if requests != [] { RunsAreTimed(tag, requests[..|requests| - 1]); }
  }

  /** The version the tag names is gone for good. */
  ghost predicate Stale(tag: Tag, s: Store, g: string) {
    exists id, t :: StaleVersion(tag, s, g, id, t)
  }

  predicate StaleVersion(tag: Tag, s: Store, g: string, id: ExpenseId, t: nat) {
    g == tag(id, t) && id < s.nextId && t <= s.clock && (id in s.rows ==> s.rows[id].updatedAt > t)
  }

  function IfMatch(q: Request): Option<string> {
    match q
    case Create(_, _) => None
    case Update(_, _, _, g) => g
    case Delete(_, _, g) => g
  }

  /** The request went through and the row is no longer what it was. */
  predicate ChangesARow(tag: Tag, s: Store, q: Request) {
    Apply(tag, s, q).0.rows != s.rows
  }

  lemma ChangeMakesStale(tag: Tag, s: Store, q: Request, g: string)
    requires Timed(s) && IfMatch(q) == Some(g) && ChangesARow(tag, s, q)
    ensures Stale(tag, Apply(tag, s, q).0, g)
  {
    assert StaleVersion(tag, Apply(tag, s, q).0, g, q.id, s.rows[q.id].updatedAt);
  }

  lemma StaleStaysStale(tag: Tag, s: Store, q: Request, g: string)
    requires Timed(s) && Stale(tag, s, g)
    ensures Stale(tag, Apply(tag, s, q).0, g)
  {
    var id, t :| StaleVersion(tag, s, g, id, t);
    if q.Update? { PatchOfAny(s, q); }
    assert StaleVersion(tag, Apply(tag, s, q).0, g, id, t);
  }

  lemma PatchOfAny(s: Store, q: Request)
    requires q.Update?
    ensures q.id in s.rows ==> Patched(s.rows[q.id], q.patch).updatedAt == s.rows[q.id].updatedAt
  {
    if q.id in s.rows { PatchKeepsVersion(s.rows[q.id], q.patch); }
  }

  /** A rejected request changes neither the rows nor the corrections; a stale tag is always rejected. */
  lemma {:induction false} StaleIsRejected(tag: Tag, s: Store, q: Request, g: string)
    requires Injective(tag) && Stale(tag, s, g) && IfMatch(q) == Some(g)
    ensures Apply(tag, s, q).1 == NotFound || Apply(tag, s, q).1 == Mismatch
    ensures Apply(tag, s, q).0 == s
  {
    var id, t :| StaleVersion(tag, s, g, id, t);
    if q.id in s.rows {
      assert tag(q.id, s.rows[q.id].updatedAt) != g;
    }
  }

  lemma {:induction false} RejectedChangesNothing(tag: Tag, s: Store, q: Request)
    requires Apply(tag, s, q).1 == NotFound || Apply(tag, s, q).1 == Mismatch
    ensures Apply(tag, s, q).0 == s
  {
  }

  lemma {:induction false} StaleForever(tag: Tag, requests: seq<Request>, i: nat, j: nat, g: string)
    requires Injective(tag) && i < j <= |requests| && IfMatch(requests[i]) == Some(g)
    requires ChangesARow(tag, Run(tag, EMPTY, requests[..i]), requests[i])
    ensures Stale(tag, Run(tag, EMPTY, requests[..j]), g)
  {
    var s := Run(tag, EMPTY, requests[..j - 1]);
    RunsAreTimed(tag, requests[..j - 1]);
    assert requests[..j][..j - 1] == requests[..j - 1];
    if i == j - 1 {
      ChangeMakesStale(tag, s, requests[i], g);
    } else {
      StaleForever(tag, requests, i, j - 1, g);
      StaleStaysStale(tag, s, requests[j - 1], g);
    }
  }

  /** In any run, once a request carrying a tag changed its row, every later request carrying the same
      tag is rejected and changes nothing: at most one update or delete wins. */
  lemma {:induction false} AtMostOneWinsPerTag(tag: Tag, requests: seq<Request>, i: nat, j: nat, g: string)
    requires Injective(tag) && i < j < |requests|
    requires IfMatch(requests[i]) == Some(g) && IfMatch(requests[j]) == Some(g)
    requires ChangesARow(tag, Run(tag, EMPTY, requests[..i]), requests[i])
    ensures
      var s := Run(tag, EMPTY, requests[..j]);
      var (after, reply) := Apply(tag, s, requests[j]);
      (reply == NotFound || reply == Mismatch) && after == s
  {
    StaleForever(tag, requests, i, j, g);
    StaleIsRejected(tag, Run(tag, EMPTY, requests[..j]), requests[j], g);
  }

  /** An update that leaves the row as it was keeps its tag: the same tag may succeed again. */
  lemma {:induction false} NoChangeKeepsTheTag(tag: Tag, s: Store, q: Request)
    requires q.Update? && Check(tag, s, q.user, q.id, q.ifMatch).None?
    ensures Apply(tag, s, q).0 == s <==> Patched(s.rows[q.id], q.patch) == s.rows[q.id]
    ensures Apply(tag, s, q).0 == s ==> Apply(tag, s, q).1 == Saved(s.rows[q.id])
  {
    PatchKeepsVersion(s.rows[q.id], q.patch);
  }
}
