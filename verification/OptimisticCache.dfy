/** The client's expense cache: optimistic edits and deletes, and their roll-back. */
module OptimisticCache {
  import opened Domain

  // A cached row: its id and its other fields, each a value or null.
  datatype Item = Item(id: string, fields: map<string, Option<string>>)

  datatype Page = Page(items: seq<Item>, nextCursor: Option<string>)

  type QueryKey = string

  // Every query under the expenses prefix; None is a query that has no data yet.
  type Entries = map<QueryKey, Option<seq<Page>>>

  // A patch entry; `Undefined` means the field is not to be touched.
  datatype Value = Undefined | Defined(value: Option<string>)

  type Patch = seq<(string, Value)>

  datatype Mutation = Edit(id: string, patch: Patch) | Drop(id: string)

  // ----- one row ------------------------------------------------------------

  function Overlay(fields: map<string, Option<string>>, patch: Patch): map<string, Option<string>> {
    if patch == [] then fields
    else
      var before, (key, value) := Overlay(fields, patch[..|patch| - 1]), patch[|patch| - 1];
      if value.Defined? then before[key := value.value] else before
  }

  method ApplyPatch(item: Item, patch: Patch) returns (result: Item)
    ensures result == Item(item.id, Overlay(item.fields, patch))
  {
    var fields := item.fields;
    for i := 0 to |patch|
      invariant fields == Overlay(item.fields, patch[..i])
    {
      assert patch[..i + 1][..i] == patch[..i];
      var (key, value) := patch[i];
      if value.Defined? { fields := fields[key := value.value]; }
    }
    assert patch[..|patch|] == patch;
    result := Item(item.id, fields);
  }

  predicate DistinctKeys(patch: Patch) {
    forall i, j | 0 <= i < j < |patch| :: patch[i].0 != patch[j].0
  }

  predicate Defines(patch: Patch, key: string) {
    exists i | 0 <= i < |patch| :: patch[i].0 == key && patch[i].1.Defined?
  }

  /** A patch writes exactly its defined entries and never writes undefined. */
  lemma {:induction false} OverlayWritesTheDefined(fields: map<string, Option<string>>, patch: Patch)
    requires DistinctKeys(patch)
    ensures forall i | 0 <= i < |patch| && patch[i].1.Defined? ::
      patch[i].0 in Overlay(fields, patch) && Overlay(fields, patch)[patch[i].0] == patch[i].1.value
    ensures forall key | !Defines(patch, key) ::
      (key in Overlay(fields, patch) <==> key in fields)
      && (key in fields ==> Overlay(fields, patch)[key] == fields[key])
  {
    if patch != [] {
      var init := patch[..|patch| - 1];
      OverlayWritesTheDefined(fields, init);
      forall key ensures Defines(init, key) ==> Defines(patch, key) {
        if i :| 0 <= i < |init| && init[i].0 == key && init[i].1.Defined? {
          assert patch[i].0 == key && patch[i].1.Defined?;
        }
      }
    }
  }

  // ----- the cache ----------------------------------------------------------

  function EditItems(items: seq<Item>, id: string, patch: Patch): seq<Item> {
    seq(|items|, i requires 0 <= i < |items| =>
      if items[i].id == id then Item(id, Overlay(items[i].fields, patch)) else items[i])
  }

  function DropItems(items: seq<Item>, id: string): seq<Item> {
    if items == [] then []
    else DropItems(items[..|items| - 1], id) + if items[|items| - 1].id == id then [] else [items[|items| - 1]]
  }

  function MutatePage(page: Page, m: Mutation): Page {
    page.(items := match m
      case Edit(id, patch) => EditItems(page.items, id, patch)
      case Drop(id) => DropItems(page.items, id))
  }

  function Mutate(data: Option<seq<Page>>, m: Mutation): Option<seq<Page>> {
    match data
    case None => None
    case Some(pages) => Some(seq(|pages|, i requires 0 <= i < |pages| => MutatePage(pages[i], m)))
  }

  /** setQueriesData: every query that has data. */
  function Optimistic(entries: Entries, m: Mutation): Entries {
    map key <- entries :: Mutate(entries[key], m)
  }

  /** setQueryData for every remembered query; writing no data is a no-op. */
  function Restored(entries: Entries, previous: Entries): Entries {
    map key | key in entries.Keys + previous.Keys ::
      if key in previous && previous[key].Some? then previous[key]
      else if key in entries then entries[key] else None
  }

  method MutateItems(items: seq<Item>, m: Mutation) returns (result: seq<Item>)
    ensures result == MutatePage(Page(items, None), m).items
  {
    result := [];
    for i := 0 to |items|
      invariant m.Edit? ==> result == EditItems(items[..i], m.id, m.patch)
      invariant m.Drop? ==> result == DropItems(items[..i], m.id)
    {
      assert items[..i + 1][..i] == items[..i];
      if m.Edit? {
        var item := items[i];
        if item.id == m.id { item := ApplyPatch(item, m.patch); }
        result := result + [item];
      } else if items[i].id != m.id {
        result := result + [items[i]];
      }
    }
    assert items[..|items|] == items;
  }

  method MutateQuery(data: Option<seq<Page>>, m: Mutation) returns (result: Option<seq<Page>>)
    ensures result == Mutate(data, m)
  {
    if data.None? { return None; }
    var pages := [];
    for i := 0 to |data.value|
      invariant pages == Mutate(Some(data.value[..i]), m).value
    {
      var items := MutateItems(data.value[i].items, m);
      pages := pages + [data.value[i].(items := items)];
    }
    assert data.value[..|data.value|] == data.value;
    result := Some(pages);
  }

  /** What may be shown after a mutation: a row that was there, changed if it is the edited one, and not
      the deleted one. */
  predicate Shows(item: Item, m: Mutation, before: seq<Item>) {
    match m
    case Drop(id) => item.id != id && item in before
    case Edit(id, patch) =>
      if item.id != id then item in before
      else exists was <- before :: was.id == id && item == Item(id, Overlay(was.fields, patch))
  }

  /** Page by page the same, up to the rows shown. */
  predicate SamePages(before: Option<seq<Page>>, after: Option<seq<Page>>) {
    && (before.None? <==> after.None?)
    && (before.Some? ==>
          && |after.value| == |before.value|
          && forall i | 0 <= i < |before.value| :: after.value[i].nextCursor == before.value[i].nextCursor)
  }

  class QueryCache {
    var entries: Entries

    /** onMutate: remember everything, then change every query that has data. What was remembered is
        enough to undo the change; `keys` are the queries in the client's order. */
    method OnMutate(m: Mutation, keys: seq<QueryKey>) returns (previous: Entries)
      requires forall key :: key in keys <==> key in entries
      requires forall i, j | 0 <= i < j < |keys| :: keys[i] != keys[j]
      modifies this
      ensures previous == old(entries) && entries == Optimistic(old(entries), m)
      ensures Restored(entries, previous) == old(entries)
      // Every query keeps its pages, and every page its cursor.
      ensures entries.Keys == old(entries).Keys
      ensures forall key <- entries :: SamePages(old(entries)[key], entries[key])
      ensures forall key <- entries, i, j ::
        entries[key].Some? && 0 <= i < |entries[key].value| && 0 <= j < |entries[key].value[i].items| ==>
          Shows(entries[key].value[i].items[j], m, old(entries)[key].value[i].items)
    {
      previous := entries;
      for n := 0 to |keys|
        invariant entries.Keys == previous.Keys
        invariant forall key <- previous ::
          entries[key] == if key in keys[..n] then Mutate(previous[key], m) else previous[key]
      {
        var data := MutateQuery(entries[keys[n]], m);
        entries := entries[keys[n] := data];
      }
      assert keys[..|keys|] == keys;
      RollbackRestores(previous, m);
      MutatedItemsShow(previous, m);
    }

    /** onError: write back what was remembered, query by query. */
    method OnError(previous: Entries, keys: seq<QueryKey>)
      requires forall key :: key in keys <==> key in previous
      requires previous.Keys <= entries.Keys
      modifies this
      ensures entries == Restored(old(entries), previous)
      ensures entries.Keys == old(entries).Keys
      ensures forall key <- entries ::
        entries[key] == if key in previous && previous[key].Some? then previous[key] else old(entries)[key]
    {
      var now := entries;
      for i := 0 to |keys|
        invariant entries.Keys == now.Keys
        invariant forall key <- now ::
          entries[key] == if key in keys[..i] && previous[key].Some? then previous[key] else now[key]
      {
        assert keys[..i + 1] == keys[..i] + [keys[i]];
        if previous[keys[i]].Some? { entries := entries[keys[i] := previous[keys[i]]]; }
      }
      assert keys[..|keys|] == keys;
    }
  }

  // ----- what it guarantees -------------------------------------------------

  /** A failed mutation leaves no trace: rolling back restores the cache. */
  lemma {:induction false} RollbackRestores(entries: Entries, m: Mutation)
    ensures Restored(Optimistic(entries, m), entries) == entries
  {
    var undone := Restored(Optimistic(entries, m), entries);
    assert undone.Keys == entries.Keys;
    forall key | key in entries ensures undone[key] == entries[key] {
      if entries[key].None? { assert Mutate(entries[key], m) == None; }
    }
  }

  lemma MutatedItemsShow(entries: Entries, m: Mutation)
    ensures forall key <- entries, i, j ::
      var after := Optimistic(entries, m)[key];
      after.Some? && 0 <= i < |after.value| && 0 <= j < |after.value[i].items| ==>
        Shows(after.value[i].items[j], m, entries[key].value[i].items)
  {
    forall key <- entries, i, j |
      var after := Mutate(entries[key], m);
      after.Some? && 0 <= i < |after.value| && 0 <= j < |after.value[i].items|
      ensures Shows(Mutate(entries[key], m).value[i].items[j], m, entries[key].value[i].items)
    {
      var page := entries[key].value[i];
      if m.Drop? {
        DropIsAFilter(page.items, m.id);
      } else {
        assert page.items[j] in page.items;
      }
    }
  }

  /** An edit keeps every page's rows in place and touches only the edited one. */
  lemma {:induction false} EditTouchesOneRow(page: Page, id: string, patch: Patch, i: nat)
    requires i < |page.items|
    ensures
      var after := MutatePage(page, Edit(id, patch));
      && |after.items| == |page.items| && after.nextCursor == page.nextCursor
      && after.items[i].id == page.items[i].id
      && (page.items[i].id != id ==> after.items[i] == page.items[i])
      && (page.items[i].id == id ==> after.items[i].fields == Overlay(page.items[i].fields, patch))
  {
  }

  lemma {:induction false} DropOfAbsentKeeps(items: seq<Item>, id: string)
    ensures (forall item <- items :: item.id != id) ==> DropItems(items, id) == items
  {
    if items != [] {
      var init, last := items[..|items| - 1], items[|items| - 1];
      DropOfAbsentKeeps(init, id);
      assert items == init + [last];
    }
  }

  lemma {:induction false} DropMembers(items: seq<Item>, id: string)
    ensures forall item :: item in DropItems(items, id) <==> item in items && item.id != id
  {
    if items != [] {
      var init, last := items[..|items| - 1], items[|items| - 1];
      DropMembers(init, id);
      assert items == init + [last];
      forall item
        ensures item in DropItems(items, id) <==> item in DropItems(init, id) || (item == last && last.id != id)
      {
      }
      hide DropItems;
    }
  }

  /** A delete removes exactly the rows with that id. */
  lemma {:induction false} DropIsAFilter(items: seq<Item>, id: string)
    ensures forall item :: item in DropItems(items, id) <==> item in items && item.id != id
    ensures (forall item <- items :: item.id != id) ==> DropItems(items, id) == items
  {
    hide *;
    DropMembers(items, id);
    DropOfAbsentKeeps(items, id);
  }

  /** A delete keeps the order of the rows it leaves. */
  lemma {:induction false} DropKeepsOrder(a: seq<Item>, b: seq<Item>, id: string)
    ensures DropItems(a + b, id) == DropItems(a, id) + DropItems(b, id)
    decreases |b|
  {
    if b == [] {
      assert a + b == a;
    } else {
      assert (a + b)[..|a + b| - 1] == a + b[..|b| - 1];
      DropKeepsOrder(a, b[..|b| - 1], id);
    }
  }

  /** Edits of different rows commute, so successes may arrive in any order. */
  lemma {:induction false} EditsOfDifferentRowsCommute(page: Page, a: string, p: Patch, b: string, q: Patch)
    requires a != b
    ensures MutatePage(MutatePage(page, Edit(a, p)), Edit(b, q)) == MutatePage(MutatePage(page, Edit(b, q)), Edit(a, p))
  {
    var left := MutatePage(MutatePage(page, Edit(a, p)), Edit(b, q));
    var right := MutatePage(MutatePage(page, Edit(b, q)), Edit(a, p));
    forall i | 0 <= i < |page.items| ensures left.items[i] == right.items[i] {
    }
    assert left.items == right.items;
  }

  /** Overlapping mutations do not roll back separately. When the first of two fails after the second
      began, the second's change is wiped with it; if the second then fails too, the first's change
      comes back. Only the refetch after a mutation settles repairs this. */
  lemma {:induction false} OverlapIsNotIsolated(entries: Entries, a: Mutation, b: Mutation)
    ensures
      var afterA := Optimistic(entries, a);
      var afterBoth := Optimistic(afterA, b);
      && Restored(afterBoth, entries) == entries
      && Restored(Restored(afterBoth, entries), afterA) == afterA
  {
    var afterA := Optimistic(entries, a);
    var afterBoth := Optimistic(afterA, b);
    forall key | key in entries ensures entries[key].None? ==> afterBoth[key].None? && afterA[key].None? {
    }
    assert Restored(afterBoth, entries) == entries;
    assert Restored(entries, afterA) == afterA;
  }
}
