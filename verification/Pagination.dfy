/** Keyset pagination of expenses: the paged form returns what sorting the whole list returns. */
module Pagination {
  import opened Domain
  import opened Calendar
  import opened Ledger
  import Cursor
  import Text

  // ----- filters ------------------------------------------------------------

  /** ILIKE: '%' matches any run, '_' any one character, letters of either case match. */
  predicate Like(pattern: string, text: string)
    decreases |pattern| + |text|
  {
    if pattern == "" then text == ""
    else if pattern[0] == '%' then Like(pattern[1..], text) || (text != "" && Like(pattern, text[1..]))
    else
      && text != ""
      && (pattern[0] == '_' || Text.Lower(pattern[0]) == Text.Lower(text[0]))
      && Like(pattern[1..], text[1..])
  }

  datatype Filters = Filters(
    category: Option<Category>, merchant: string, dateFrom: Option<Date>, dateTo: Option<Date>,
    minAmount: Option<int>, maxAmount: Option<int>)

  predicate Passes(f: Filters, e: Expense) {
    && (f.category.Some? ==> e.category == f.category.value)
    && (f.merchant != "" ==> Like("%" + f.merchant + "%", e.merchant))
    && (f.dateFrom.Some? ==> AtOrAfter(e.date, f.dateFrom.value))
    && (f.dateTo.Some? ==> AtOrAfter(f.dateTo.value, e.date))
    && (f.minAmount.Some? ==> e.amount >= f.minAmount.value)
    && (f.maxAmount.Some? ==> e.amount <= f.maxAmount.value)
  }

  predicate PlainNeedle(s: string) {
    '%' !in s && '_' !in s
  }

  /** The needle stands in the text at i, in any case. */
  predicate StandsAt(text: string, i: int, needle: string) {
    0 <= i <= |text| - |needle| && Text.LowerAll(text[i..i + |needle|]) == Text.LowerAll(needle)
  }

  predicate Contains(text: string, needle: string) {
    exists i | 0 <= i <= |text| :: StandsAt(text, i, needle)
  }

  /** A search for a plain merchant name finds exactly the texts that contain it. */
  lemma {:induction false} SearchFindsSubstrings(needle: string, text: string)
    requires PlainNeedle(needle)
    ensures Like("%" + needle + "%", text) <==> Contains(text, needle)
  {
    hide Like;
    var pattern := needle + "%";
    assert "%" + needle + "%" == ['%'] + pattern;
    AnyRunBefore(pattern, text);
    forall k | 0 <= k <= |text| ensures Like(pattern, text[k..]) <==> StandsAt(text, k, needle) {
      PlainThenAny(needle, text[k..]);
      if k <= |text| - |needle| {
        Text.SliceOfDrop(text, k, 0, |needle|);
        assert text[k..][..|needle|] == text[k..][0..|needle|];
      }
    }
  }

  lemma {:induction false} AnyRunBefore(pattern: string, text: string)
    ensures Like(['%'] + pattern, text) <==> exists k | 0 <= k <= |text| :: Like(pattern, text[k..])
    decreases |text|
  {
    var full := ['%'] + pattern;
    assert full[1..] == pattern && text[0..] == text;
    if text != "" {
      AnyRunBefore(pattern, text[1..]);
      forall k | 1 <= k <= |text| ensures text[k..] == text[1..][k - 1..] {
        Text.DropOfDrop(text, 1, k - 1);
      }
      if k :| 0 <= k <= |text[1..]| && Like(pattern, text[1..][k..]) {
        assert Like(pattern, text[k + 1..]);
      }
    }
  }

  lemma {:induction false} PlainThenAny(needle: string, text: string)
    requires PlainNeedle(needle)
    ensures Like(needle + "%", text)
      <==> |needle| <= |text| && Text.LowerAll(text[..|needle|]) == Text.LowerAll(needle)
  {
    if needle == "" {
      assert needle + "%" == "%";
      AnythingMatches(text);
    } else {
      assert (needle + "%")[1..] == needle[1..] + "%";
      if text != "" {
        PlainThenAny(needle[1..], text[1..]);
        if |needle| <= |text| {
          SameLowerIff(text[..|needle|], needle);
          assert text[..|needle|][1..] == text[1..][..|needle| - 1];
        }
      }
    }
  }

  /** Without wildcards a pattern matches the same text in any case, and no other. */
  lemma {:induction false} PlainMatchesItself(needle: string, text: string)
    requires PlainNeedle(needle)
    ensures Like(needle, text) <==> |text| == |needle| && Text.LowerAll(text) == Text.LowerAll(needle)
  {
    if needle != "" && text != "" {
      PlainMatchesItself(needle[1..], text[1..]);
      if |text| == |needle| { SameLowerIff(text, needle); }
    }
  }

  lemma {:induction false} AnythingMatches(text: string)
    ensures Like("%", text)
  {
    assert "%"[1..] == "";
    if text != "" { AnythingMatches(text[1..]); }
  }

  lemma SameLowerIff(a: string, b: string)
    requires |a| == |b| > 0
    ensures Text.LowerAll(a) == Text.LowerAll(b)
      <==> Text.Lower(a[0]) == Text.Lower(b[0]) && Text.LowerAll(a[1..]) == Text.LowerAll(b[1..])
  {
    assert Text.LowerAll(a)[1..] == Text.LowerAll(a[1..]) && Text.LowerAll(b)[1..] == Text.LowerAll(b[1..]);
    assert Text.LowerAll(a)[0] == Text.Lower(a[0]) && Text.LowerAll(b)[0] == Text.Lower(b[0]);
    assert Text.LowerAll(a) == [Text.LowerAll(a)[0]] + Text.LowerAll(a)[1..];
    assert Text.LowerAll(b) == [Text.LowerAll(b)[0]] + Text.LowerAll(b)[1..];
  }

  /** What a filter lets through: both days and both amounts of a range are inside it. */
  lemma {:induction false} FilterIff(f: Filters, e: Expense)
    requires PlainNeedle(f.merchant)
    ensures Passes(f, e) <==>
      && (f.category.None? || f.category.value == e.category)
      && (f.merchant == "" || Contains(e.merchant, f.merchant))
      && (f.dateFrom.None? || f.dateFrom.value == e.date || Before(f.dateFrom.value, e.date))
      && (f.dateTo.None? || f.dateTo.value == e.date || Before(e.date, f.dateTo.value))
      && (f.minAmount.None? || f.minAmount.value <= e.amount)
      && (f.maxAmount.None? || e.amount <= f.maxAmount.value)
  {
    SearchFindsSubstrings(f.merchant, e.merchant);
  }

  // ----- order --------------------------------------------------------------

  datatype Key = Key(date: Date, id: nat)

  function KeyOf(e: Expense): Key {
    Key(e.date, e.id)
  }

  /** `a` comes later in the list: earlier date, or the same date and the smaller id. */
  predicate Below(a: Key, b: Key) {
    Before(a.date, b.date) || (a.date == b.date && a.id < b.id)
  }

  lemma BelowIsStrictOrder(a: Key, b: Key, c: Key)
    ensures !Below(a, a)
    ensures Below(a, b) && Below(b, c) ==> Below(a, c)
    ensures a == b || Below(a, b) || Below(b, a)
  {
  }

  /** A table: rows with distinct ids. */
  predicate Table(rows: set<Expense>) {
    forall a <- rows, b <- rows | a.id == b.id :: a == b
  }

  predicate Descending(s: seq<Expense>) {
    forall i, j | 0 <= i < j < |s| :: Below(KeyOf(s[j]), KeyOf(s[i]))
  }

  /** `s` is the rows in (date, id) order, newest first. */
  ghost predicate Sorts(s: seq<Expense>, rows: set<Expense>) {
    Descending(s) && (forall e :: e in s <==> e in rows)
  }

  /** ORDER BY expense_date DESC, id DESC. */
  ghost function Ordered(rows: set<Expense>): (s: seq<Expense>)
    requires Table(rows)
    ensures Sorts(s, rows)
  {
    SomeOrder(rows);
    var s :| Sorts(s, rows);
    s
  }

  lemma {:induction false} SomeOrder(rows: set<Expense>)
    requires Table(rows)
    ensures exists s :: Sorts(s, rows)
  {
    if rows == {} {
      assert Sorts([], rows);
    } else {
      Newest(rows);
      var first :| IsNewest(first, rows);
      SomeOrder(rows - {first});
      var rest :| Sorts(rest, rows - {first});
      Prepend(first, rest, rows);
    }
  }

  lemma Prepend(first: Expense, rest: seq<Expense>, rows: set<Expense>)
    requires IsNewest(first, rows)
    requires Sorts(rest, rows - {first})
    ensures Sorts([first] + rest, rows)
  {
    var s := [first] + rest;
    forall i, j | 0 <= i < j < |s| ensures Below(KeyOf(s[j]), KeyOf(s[i])) {
      assert s[j] == rest[j - 1] && s[j] in rest;
    }
    forall e ensures e in s <==> e in rows {
    }
  }

  lemma {:induction false} SortedLength(s: seq<Expense>, rows: set<Expense>)
    requires Sorts(s, rows)
    ensures |s| == |rows|
  {
    EmptyTogether(s, rows);
    if s != [] {
      assert s[0] in rows;
      DropFirst(s, rows);
      SortedLength(s[1..], rows - {s[0]});
    }
  }

  lemma EmptyTogether(s: seq<Expense>, rows: set<Expense>)
    requires Sorts(s, rows)
    ensures s == [] <==> rows == {}
  {
    if s != [] {
      assert s[0] in rows;
    } else {
      assert forall e :: e in rows ==> e in s;
    }
  }

  predicate IsNewest(first: Expense, rows: set<Expense>) {
    first in rows && forall e <- rows :: e == first || Below(KeyOf(e), KeyOf(first))
  }

  lemma {:induction false} Newest(rows: set<Expense>)
    requires Table(rows) && rows != {}
    ensures exists first :: IsNewest(first, rows)
  {
    var some :| some in rows;
    var others := rows - {some};
    if others == {} {
      assert rows == {some} + others;
      assert IsNewest(some, rows);
    } else {
      Newest(others);
      var best :| IsNewest(best, others);
      NewerOfTwo(some, best, rows);
    }
  }

  lemma NewerOfTwo(some: Expense, best: Expense, rows: set<Expense>)
    requires Table(rows) && some in rows && IsNewest(best, rows - {some})
    ensures IsNewest(if Below(KeyOf(best), KeyOf(some)) then some else best, rows)
  {
    var first := if Below(KeyOf(best), KeyOf(some)) then some else best;
    BelowIsStrictOrder(KeyOf(some), KeyOf(best), KeyOf(some));
    forall e <- rows ensures e == first || Below(KeyOf(e), KeyOf(first)) {
      BelowIsStrictOrder(KeyOf(e), KeyOf(best), KeyOf(some));
    }
  }

  /** The order is strict, so there is only one sorted list of a table. */
  lemma {:induction false} SortedListIsUnique(s: seq<Expense>, t: seq<Expense>, rows: set<Expense>)
    requires Sorts(s, rows) && Sorts(t, rows)
    ensures s == t
  {
    EmptyTogether(s, rows);
    EmptyTogether(t, rows);
    if s != [] {
      assert s[0] in rows && s[0] in t;
      var i :| 0 <= i < |t| && t[i] == s[0];
      var j :| 0 <= j < |s| && s[j] == t[0] by { assert t[0] in rows; assert t[0] in s; }
      assert i == 0 && j == 0 by {
        if i > 0 && j > 0 { BelowIsStrictOrder(KeyOf(s[0]), KeyOf(t[0]), KeyOf(s[0])); }
        BelowIsStrictOrder(KeyOf(s[0]), KeyOf(s[0]), KeyOf(s[0]));
      }
      var rest := rows - {s[0]};
      DropFirst(s, rows);
      DropFirst(t, rows);
      SortedListIsUnique(s[1..], t[1..], rest);
      assert s == [s[0]] + s[1..] && t == [t[0]] + t[1..];
    }
  }

  lemma DropFirst(s: seq<Expense>, rows: set<Expense>)
    requires Sorts(s, rows) && s != []
    ensures Sorts(s[1..], rows - {s[0]})
  {
    BelowIsStrictOrder(KeyOf(s[0]), KeyOf(s[0]), KeyOf(s[0]));
    forall e ensures e in s[1..] <==> e in rows - {s[0]} {
      if e in s[1..] {
        var i :| 0 <= i < |s[1..]| && s[1..][i] == e;
        assert s[i + 1] == e;
      }
      assert s == [s[0]] + s[1..];
    }
  }

  // ----- one page -----------------------------------------------------------

  const MAX_PAGE_SIZE: int := 100

  function Clamp(size: int): (n: nat)
    ensures 1 <= n <= 100
    ensures n == size || (size < 1 && n == 1) || (size > 100 && n == 100)
  {
    var capped := if size < MAX_PAGE_SIZE then size else MAX_PAGE_SIZE;
    if capped < 1 then 1 else capped
  }

  function Matching(table: set<Expense>, user: UserId, f: Filters): set<Expense> {
    set e <- table | e.owner == user && Passes(f, e)
  }

  /** The list is the caller's own rows, as far as the filter lets them through. */
  lemma {:induction false} MatchingIff(table: set<Expense>, user: UserId, f: Filters, e: Expense)
    ensures e in Matching(table, user, f) <==> e in table && e.owner == user && Passes(f, e)
  {
  }

  /** The keyset predicate. */
  function After(rows: set<Expense>, cursor: Option<Key>): set<Expense> {
    set e <- rows | cursor.None? || Below(KeyOf(e), cursor.value)
  }

  datatype Page = Page(items: seq<Expense>, next: Option<Key>)

  /** One query of at most n + 1 rows; the extra row only tells whether a page follows. */
  ghost function PageOf(rows: set<Expense>, cursor: Option<Key>, n: nat): (page: Page)
    requires Table(rows) && n >= 1
  {
    var all := Ordered(After(rows, cursor));
    var fetched := if |all| > n + 1 then all[..n + 1] else all;
    if |fetched| > n then Page(fetched[..n], Some(KeyOf(fetched[n - 1]))) else Page(fetched, None)
  }

  ghost function ListExpenses(table: set<Expense>, user: UserId, f: Filters, cursor: Option<Key>, pageSize: int): Page
    requires Table(table)
  {
    PageOf(Matching(table, user, f), cursor, Clamp(pageSize))
  }

  /** The keyset predicate of the n-th key selects exactly what follows it. */
  lemma {:induction false} CursorMarksTheTail(rows: set<Expense>, cursor: Option<Key>, all: seq<Expense>, n: nat)
    requires Sorts(all, After(rows, cursor)) && 1 <= n <= |all|
    ensures Sorts(all[n..], After(rows, Some(KeyOf(all[n - 1]))))
  {
    var last := KeyOf(all[n - 1]);
    assert all[n - 1] in all;
    forall e ensures e in all[n..] <==> e in After(rows, Some(last)) {
      if e in all[n..] {
        var i :| 0 <= i < |all[n..]| && all[n..][i] == e;
        assert all[n + i] == e && e in all;
        assert Below(KeyOf(all[n + i]), last);
      } else if e in rows && Below(KeyOf(e), last) {
        NotInHead(rows, cursor, all, n, e);
      }
    }
  }

  lemma NotInHead(rows: set<Expense>, cursor: Option<Key>, all: seq<Expense>, n: nat, e: Expense)
    requires Sorts(all, After(rows, cursor)) && 1 <= n <= |all|
    requires e in rows && Below(KeyOf(e), KeyOf(all[n - 1]))
    ensures e in all[n..]
  {
    assert all[n - 1] in all;
    if cursor.Some? { BelowIsStrictOrder(KeyOf(e), KeyOf(all[n - 1]), cursor.value); }
    assert e in all;
    var i :| 0 <= i < |all| && all[i] == e;
    if i < n - 1 {
      assert Below(KeyOf(all[n - 1]), KeyOf(all[i]));
      BelowIsStrictOrder(KeyOf(e), KeyOf(all[n - 1]), KeyOf(e));
      assert false;
    }
    BelowIsStrictOrder(KeyOf(e), KeyOf(e), KeyOf(e));
    assert all[n..][i - n] == e;
  }

  /** A page is the head of what is left, and its cursor marks exactly the tail. */
  lemma {:induction false} PageSplitsTheRest(rows: set<Expense>, cursor: Option<Key>, n: nat)
    requires Table(rows) && n >= 1
    ensures
      var page := PageOf(rows, cursor, n);
      var all := Ordered(After(rows, cursor));
      && |page.items| <= n && |page.items| <= |all| && page.items == all[..|page.items|]
      && (page.next.None? ==> page.items == all)
      && (page.next.Some? ==>
            && |page.items| == n < |all| && page.next.value == KeyOf(all[n - 1])
            && Ordered(After(rows, page.next)) == all[n..])
  {
    var page := PageOf(rows, cursor, n);
    var all := Ordered(After(rows, cursor));
    if page.next.Some? {
      CursorMarksTheTail(rows, cursor, all, n);
      var rest := After(rows, page.next);
      SortedListIsUnique(all[n..], Ordered(rest), rest);
    }
  }

  // ----- a walk over a table that does not change ---------------------------

  /** Following `next` until it is absent. */
  ghost function Walk(rows: set<Expense>, cursor: Option<Key>, n: nat): (pages: seq<Page>)
    requires Table(rows) && n >= 1
    decreases |After(rows, cursor)|
  {
    var page := PageOf(rows, cursor, n);
    if page.next.None? then [page]
    else
      LessIsLeft(rows, cursor, n);
      [page] + Walk(rows, page.next, n)
  }

  function Items(pages: seq<Page>): seq<Expense> {
    if pages == [] then [] else pages[0].items + Items(pages[1..])
  }

  lemma ItemsCons(page: Page, later: seq<Page>)
    ensures Items([page] + later) == page.items + Items(later)
  {
    assert ([page] + later)[1..] == later;
  }

  lemma LessIsLeft(rows: set<Expense>, cursor: Option<Key>, n: nat)
    requires Table(rows) && n >= 1 && PageOf(rows, cursor, n).next.Some?
    ensures |After(rows, PageOf(rows, cursor, n).next)| < |After(rows, cursor)|
  {
    PageSplitsTheRest(rows, cursor, n);
    var left := After(rows, PageOf(rows, cursor, n).next);
    SortedLength(Ordered(After(rows, cursor)), After(rows, cursor));
    SortedLength(Ordered(left), left);
  }

  lemma WalkUnfolds(rows: set<Expense>, cursor: Option<Key>, n: nat)
    requires Table(rows) && n >= 1
    ensures
      var page, pages := PageOf(rows, cursor, n), Walk(rows, cursor, n);
      && (page.next.None? ==> Items(pages) == page.items && |pages| == 1)
      && (page.next.Some? ==>
            && pages == [page] + Walk(rows, page.next, n)
            && Items(pages) == page.items + Items(Walk(rows, page.next, n)))
  {
    var page := PageOf(rows, cursor, n);
    if page.next.Some? {
      ItemsCons(page, Walk(rows, page.next, n));
    } else {
      ItemsCons(page, []);
      assert page.items + [] == page.items;
    }
  }

  lemma {:induction false} WalkIsTheRest(rows: set<Expense>, cursor: Option<Key>, n: nat)
    requires Table(rows) && n >= 1
    ensures Items(Walk(rows, cursor, n)) == Ordered(After(rows, cursor))
    decreases |After(rows, cursor)|
  {
    WalkUnfolds(rows, cursor, n);
    PageSplitsTheRest(rows, cursor, n);
    var page := PageOf(rows, cursor, n);
    if page.next.Some? {
      LessIsLeft(rows, cursor, n);
      WalkIsTheRest(rows, page.next, n);
      var all := Ordered(After(rows, cursor));
      assert all == all[..n] + all[n..];
    }
  }

  lemma {:induction false} AllButTheLastAreFull(rows: set<Expense>, cursor: Option<Key>, n: nat)
    requires Table(rows) && n >= 1
    ensures Walk(rows, cursor, n) != []
    ensures forall i | 0 <= i < |Walk(rows, cursor, n)| - 1 :: |Walk(rows, cursor, n)[i].items| == n
    decreases |After(rows, cursor)|
  {
    WalkUnfolds(rows, cursor, n);
    PageSplitsTheRest(rows, cursor, n);
    var page := PageOf(rows, cursor, n);
    if page.next.Some? {
      LessIsLeft(rows, cursor, n);
      AllButTheLastAreFull(rows, page.next, n);
    }
  }

  /** Pagination refines sorting: for every table, filter and page size the pages, one after the
      other, are the user's matching rows in strictly descending order, none twice and none missing;
      every page but the last is full. */
  lemma {:induction false} PagesAreTheSortedList(table: set<Expense>, user: UserId, f: Filters, pageSize: int)
    requires Table(table)
    ensures
      var rows := Matching(table, user, f);
      var pages := Walk(rows, None, Clamp(pageSize));
      && Sorts(Items(pages), rows) && |Items(pages)| == |rows|
      && (forall i, j | 0 <= i < j < |Items(pages)| ::
            var newer, older := Items(pages)[i], Items(pages)[j];
            Before(older.date, newer.date) || (older.date == newer.date && older.id < newer.id))
      && forall i | 0 <= i < |pages| - 1 :: |pages[i].items| == Clamp(pageSize)
  {
    var rows := Matching(table, user, f);
    WalkIsTheRest(rows, None, Clamp(pageSize));
    AllButTheLastAreFull(rows, None, Clamp(pageSize));
    assert After(rows, None) == rows;
    SortedLength(Ordered(rows), rows);
  }

  // ----- a walk while the table changes -------------------------------------

  /** One fetch per table, each from the cursor of the fetch before. */
  ghost function WalkOver(tables: seq<set<Expense>>, cursor: Option<Key>, n: nat): seq<Page>
    requires n >= 1 && forall rows <- tables :: Table(rows)
  {
    if tables == [] then []
    else
      var page := PageOf(tables[0], cursor, n);
      [page] + (if page.next.None? then [] else WalkOver(tables[1..], page.next, n))
  }

  ghost predicate Completed(pages: seq<Page>) {
    pages != [] && pages[|pages| - 1].next.None?
  }

  /** Everything emitted lies below the cursor it started from, in strictly descending order. */
  lemma {:induction false} EmittedDescends(tables: seq<set<Expense>>, cursor: Option<Key>, n: nat)
    requires n >= 1 && forall rows <- tables :: Table(rows)
    ensures Descending(Items(WalkOver(tables, cursor, n)))
    ensures cursor.Some? ==> forall e <- Items(WalkOver(tables, cursor, n)) :: Below(KeyOf(e), cursor.value)
  {
    if tables != [] {
      var page := PageOf(tables[0], cursor, n);
      PageSplitsTheRest(tables[0], cursor, n);
      var all := Ordered(After(tables[0], cursor));
      if page.next.Some? {
        var later := WalkOver(tables[1..], page.next, n);
        EmittedDescends(tables[1..], page.next, n);
        ItemsCons(page, later);
        PageThenLater(tables[0], cursor, all, n, Items(later));
      } else {
        ItemsCons(page, []);
        assert Items(WalkOver(tables, cursor, n)) == all;
      }
    }
  }

  /** A full page followed by rows below its last key. */
  lemma PageThenLater(rows: set<Expense>, cursor: Option<Key>, all: seq<Expense>, n: nat, later: seq<Expense>)
    requires Sorts(all, After(rows, cursor)) && 1 <= n < |all|
    requires Descending(later) && forall e <- later :: Below(KeyOf(e), KeyOf(all[n - 1]))
    ensures Descending(all[..n] + later)
    ensures cursor.Some? ==> forall e <- all[..n] + later :: Below(KeyOf(e), cursor.value)
  {
    var items := all[..n] + later;
    assert all[n - 1] in all;
    forall i, j | 0 <= i < j < |items| ensures Below(KeyOf(items[j]), KeyOf(items[i])) {
      if i < n <= j {
        assert items[j] in later;
        BelowIsStrictOrder(KeyOf(items[j]), KeyOf(all[n - 1]), KeyOf(all[i]));
      } else if n <= i {
        assert items[i] == later[i - n] && items[j] == later[j - n];
      }
    }
    if cursor.Some? {
      forall e <- items ensures Below(KeyOf(e), cursor.value) {
        if e in later {
          BelowIsStrictOrder(KeyOf(e), KeyOf(all[n - 1]), cursor.value);
        } else {
          assert e in all[..n];
          assert e in all;
        }
      }
    }
  }

  predicate HasKey(rows: set<Expense>, key: Key) {
    exists e <- rows :: KeyOf(e) == key
  }

  predicate Emits(items: seq<Expense>, key: Key) {
    exists e <- items :: KeyOf(e) == key
  }

  /** A row that is there at a fetch is on the page, or lies below the page's cursor. */
  lemma {:induction false} OnThePageOrBelow(rows: set<Expense>, cursor: Option<Key>, n: nat, key: Key)
    requires n >= 1 && Table(rows) && HasKey(rows, key)
    requires cursor.Some? ==> Below(key, cursor.value)
    ensures
      var page := PageOf(rows, cursor, n);
      Emits(page.items, key) || (page.next.Some? && Below(key, page.next.value))
  {
    var page := PageOf(rows, cursor, n);
    var all := Ordered(After(rows, cursor));
    PageSplitsTheRest(rows, cursor, n);
    var e :| e in rows && KeyOf(e) == key;
    assert e in After(rows, cursor) && e in all;
    var i :| 0 <= i < |all| && all[i] == e;
    if i < |page.items| {
      assert page.items[i] == e;
      assert e in page.items;
    } else {
      assert Below(KeyOf(all[i]), KeyOf(all[n - 1]));
    }
  }

  lemma EmittedBySome(first: seq<Expense>, second: seq<Expense>, key: Key)
    requires Emits(first, key) || Emits(second, key)
    ensures Emits(first + second, key)
  {
    if e :| e in first && KeyOf(e) == key {
      assert e in first + second;
    } else {
      var e :| e in second && KeyOf(e) == key;
      assert e in first + second;
    }
  }

  /** A row that is there at every fetch is emitted, or still lies below the cursor of an unfinished
      walk. */
  lemma {:induction false} StableRowIsEmitted(tables: seq<set<Expense>>, cursor: Option<Key>, n: nat, key: Key)
    requires n >= 1 && tables != [] && forall rows <- tables :: Table(rows)
    requires forall rows <- tables :: HasKey(rows, key)
    requires cursor.Some? ==> Below(key, cursor.value)
    ensures
      var pages := WalkOver(tables, cursor, n);
      Emits(Items(pages), key)
      || (!Completed(pages) && Below(key, pages[|pages| - 1].next.value))
  {
    var page := PageOf(tables[0], cursor, n);
    assert HasKey(tables[0], key);
    OnThePageOrBelow(tables[0], cursor, n, key);
    var later := if page.next.None? then [] else WalkOver(tables[1..], page.next, n);
    ItemsCons(page, later);
    if Emits(page.items, key) {
      EmittedBySome(page.items, Items(later), key);
    } else if |tables| > 1 {
      StableRowIsEmitted(tables[1..], page.next, n, key);
      if Emits(Items(later), key) { EmittedBySome(page.items, Items(later), key); }
    }
  }

  /** What one user's filtered list is at each fetch. */
  function Views(tables: seq<set<Expense>>, user: UserId, f: Filters): (views: seq<set<Expense>>)
    ensures |views| == |tables| && forall i | 0 <= i < |tables| :: views[i] == Matching(tables[i], user, f)
    ensures (forall i | 0 <= i < |tables| :: Table(tables[i])) ==> forall view <- views :: Table(view)
  {
    if tables == [] then [] else [Matching(tables[0], user, f)] + Views(tables[1..], user, f)
  }

  /** Pagination under writes: whatever is inserted, deleted or edited between fetches, keys are
      emitted in strictly descending order over the whole walk, and a row that keeps its key and
      matches at every fetch of a completed walk is returned exactly once. */
  lemma {:induction false} StableRowsAppearExactlyOnce(
    tables: seq<set<Expense>>, user: UserId, f: Filters, pageSize: int, key: Key)
    requires tables != [] && forall i | 0 <= i < |tables| :: Table(tables[i])
    requires forall i | 0 <= i < |tables| :: HasKey(Matching(tables[i], user, f), key)
    ensures
      var pages := WalkOver(Views(tables, user, f), None, Clamp(pageSize));
      && Descending(Items(pages))
      && (Completed(pages) ==>
            exists i | 0 <= i < |Items(pages)| ::
              KeyOf(Items(pages)[i]) == key
              && forall j | 0 <= j < |Items(pages)| && j != i :: KeyOf(Items(pages)[j]) != key)
  {
    var views := Views(tables, user, f);
    var pages := WalkOver(views, None, Clamp(pageSize));
    EmittedDescends(views, None, Clamp(pageSize));
    if Completed(pages) {
      StableRowIsEmitted(views, None, Clamp(pageSize), key);
      var items := Items(pages);
      var e :| e in items && KeyOf(e) == key;
      var i :| 0 <= i < |items| && items[i] == e;
      forall j | 0 <= j < |items| && j != i ensures KeyOf(items[j]) != key {
        BelowIsStrictOrder(key, key, key);
      }
    }
  }

  // ----- through the wire ---------------------------------------------------

  function CursorOf(key: Key): Cursor.ExpenseCursor {
    Cursor.ExpenseCursor(key.date, key.id)
  }

  /** Rows as the database holds them: real dates and 128-bit ids. */
  predicate Storable(rows: set<Expense>) {
    forall e <- rows :: Cursor.WellFormed(CursorOf(KeyOf(e)))
  }

  function ToWire(cursor: Option<Key>): Option<string>
    requires cursor.Some? ==> Cursor.WellFormed(CursorOf(cursor.value))
  {
    if cursor.None? then None else Some(Cursor.Encode(CursorOf(cursor.value)))
  }

  /** An absent or empty cursor starts from the top; an unreadable one is an error. */
  function FromWire(raw: Option<string>): Result<Option<Key>, Cursor.Failure> {
    if raw.None? || raw.value == "" then Ok(None)
    else
      match Cursor.Decode(raw.value)
      case Err(failure) => Err(failure)
      case Ok(c) => Ok(Some(Key(c.date, c.id)))
  }

  lemma {:induction false} WireRoundTrip(cursor: Option<Key>)
    requires cursor.Some? ==> Cursor.WellFormed(CursorOf(cursor.value))
    ensures FromWire(ToWire(cursor)) == Ok(cursor)
  {
    if cursor.Some? {
      Cursor.CursorRoundTrip(CursorOf(cursor.value));
      Cursor.EncodeIsNotEmpty(CursorOf(cursor.value));
    }
  }

  lemma NextIsStorable(table: set<Expense>, user: UserId, f: Filters, cursor: Option<Key>, pageSize: int)
    requires Table(table) && Storable(table)
    ensures
      var next := ListExpenses(table, user, f, cursor, pageSize).next;
      next.Some? ==> Cursor.WellFormed(CursorOf(next.value))
  {
    var rows := Matching(table, user, f);
    var all := Ordered(After(rows, cursor));
    var n := Clamp(pageSize);
    if |all| > n { assert all[n - 1] in all; }
  }

  /** The endpoint: cursors travel as opaque strings. */
  ghost function Serve(table: set<Expense>, user: UserId, f: Filters, raw: Option<string>, pageSize: int)
    : Result<(seq<Expense>, Option<string>), Cursor.Failure>
    requires Table(table) && Storable(table)
  {
    match FromWire(raw)
    case Err(e) => Err(e)
    case Ok(cursor) =>
      var page := ListExpenses(table, user, f, cursor, pageSize);
      NextIsStorable(table, user, f, cursor, pageSize);
      Ok((page.items, ToWire(page.next)))
  }

  /** What a client collects by sending each returned string back, one fetch per table. */
  ghost function Collect(tables: seq<set<Expense>>, user: UserId, f: Filters, raw: Option<string>, pageSize: int)
    : seq<Expense>
    requires forall i | 0 <= i < |tables| :: Table(tables[i]) && Storable(tables[i])
  {
    if tables == [] then []
    else
      match Serve(tables[0], user, f, raw, pageSize)
      case Err(_) => []
      case Ok((items, next)) => items + if next.None? then [] else Collect(tables[1..], user, f, next, pageSize)
  }

  /** Nothing is lost on the wire: a client that only handles strings collects exactly the items of
      the walk by keys, so both pagination theorems hold of it. */
  lemma {:induction false} WireWalkIsWalk(
    tables: seq<set<Expense>>, user: UserId, f: Filters, cursor: Option<Key>, pageSize: int)
    requires forall i | 0 <= i < |tables| :: Table(tables[i]) && Storable(tables[i])
    requires cursor.Some? ==> Cursor.WellFormed(CursorOf(cursor.value))
    ensures
      Collect(tables, user, f, ToWire(cursor), pageSize)
        == Items(WalkOver(Views(tables, user, f), cursor, Clamp(pageSize)))
  {
    if tables != [] {
      hide ListExpenses, ToWire, FromWire, Storable;
      WireRoundTrip(cursor);
      NextIsStorable(tables[0], user, f, cursor, pageSize);
      var page := ListExpenses(tables[0], user, f, cursor, pageSize);
      var views := Views(tables, user, f);
      assert views[1..] == Views(tables[1..], user, f);
      var later := if page.next.None? then [] else WalkOver(views[1..], page.next, Clamp(pageSize));
      ItemsCons(page, later);
      if page.next.Some? { WireWalkIsWalk(tables[1..], user, f, page.next, pageSize); }
    }
  }
}
