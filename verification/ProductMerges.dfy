/** The merged page, field by field, from the fields of the two pages. */
module ProductMerges {
  import opened Sums
  import opened FirstOccurrences
  import opened ProductPages

  // ---------------------------------------------------------------- the order of the ids

  /** Where an id stands first in a list, or the list's length. */
  function First(ids: seq<int>, id: int): nat {
    if ids == [] || ids[0] == id then 0 else 1 + First(ids[1..], id)
  }

  lemma {:induction false} FirstIn(ids: seq<int>, id: int)
    ensures First(ids, id) <= |ids| && (id in ids <==> First(ids, id) < |ids|)
    ensures id in ids ==> ids[First(ids, id)] == id
  {
    if ids != [] && ids[0] != id {
      FirstIn(ids[1..], id);
    }
  }

  lemma {:induction false} FirstAppend(ids: seq<int>, more: seq<int>, id: int)
    ensures First(ids + more, id) == if id in ids then First(ids, id) else |ids| + First(more, id)
  {
    if ids == [] {
      assert ids + more == more;
    } else {
      assert (ids + more)[1..] == ids[1..] + more;
      FirstAppend(ids[1..], more, id);
    }
  }

  ghost predicate InOrderOf(ids: seq<int>, named: seq<int>) {
    && (forall id :: id in ids <==> id in named && id > 0)
    && (forall i, j :: 0 <= i < j < |ids| ==> First(named, ids[i]) < First(named, ids[j]))
  }

  lemma OneMoreInOrder(ids: seq<int>, named: seq<int>, id: int)
    requires InOrderOf(ids, named)
    ensures InOrderOf(if id > 0 && id !in ids then ids + [id] else ids, named + [id])
  {
    forall other | other in ids ensures First(named + [id], other) == First(named, other) < |named| {
      FirstAppend(named, [id], other);
      FirstIn(named, other);
    }
    if id > 0 && id !in ids {
      FirstAppend(named, [id], id);
      assert First(named + [id], id) == |named|;
    }
  }

  lemma NextGathered(front: seq<int>, id: int)
    ensures var gathered := Gather([], Positive(front), Self);
            Gather([], Positive(front + [id]), Self) == if id > 0 && id !in gathered then gathered + [id] else gathered
  {
    var gathered := Gather([], Positive(front), Self);
    PositiveAppend(front, [id]);
    assert Positive([id]) == if id > 0 then [id] else [];
    GatherAppend([], Positive(front), Positive([id]), Self);
    GatherOne(gathered, id, Self);
    assert Listed(gathered, id, Self) <==> id in gathered;
  }

  lemma OneMoreGathered(front: seq<int>, id: int)
    requires InOrderOf(Gather([], Positive(front), Self), front)
    ensures InOrderOf(Gather([], Positive(front + [id]), Self), front + [id])
  {
    NextGathered(front, id);
    OneMoreInOrder(Gather([], Positive(front), Self), front, id);
  }

  lemma {:induction false} GatheredInOrder(named: seq<int>)
    ensures InOrderOf(Gather([], Positive(named), Self), named)
  {
    if named != [] {
      assert named == named[..|named| - 1] + [named[|named| - 1]];
      GatheredInOrder(named[..|named| - 1]);
      OneMoreGathered(named[..|named| - 1], named[|named| - 1]);
    }
  }

  /** Every product id that the two pages write down, in order: a page's own ids, then those of its items. */
  function WrittenIds(a: Payload, b: Payload): seq<int> {
    a.ids + ItemIds(a.items) + (b.ids + ItemIds(b.items))
  }

  /** The merged ids are the positive ones of both pages, each once, in the order in which they are first written. */
  lemma MergedIdsInOrder(a: Payload, b: Payload)
    ensures InOrderOf(Merge(a, b).ids, WrittenIds(a, b))
  {
    PositiveAppend(a.ids, ItemIds(a.items));
    PositiveAppend(b.ids, ItemIds(b.items));
    PositiveAppend(a.ids + ItemIds(a.items), b.ids + ItemIds(b.items));
    GatheredInOrder(WrittenIds(a, b));
  }

  // ---------------------------------------------------------------- the items

  /** The same product, or, without a product, the same content. */
  predicate SameItem(x: Item, y: Item) {
    if x.id > 0 || y.id > 0 then x.id == y.id else x == y
  }

  lemma KeysAreSame(x: Item, y: Item)
    ensures KeyOf(x) == KeyOf(y) <==> SameItem(x, y)
  {
  }

  /** No earlier item of a list is the same. */
  ghost predicate Earliest(items: seq<Item>, i: nat) {
    i < |items| && forall j :: 0 <= j < i ==> !SameItem(items[j], items[i])
  }

  lemma EarliestIsFirst(items: seq<Item>, i: nat)
    ensures Earliest(items, i) <==> FirstOfKey(items, i, KeyOf)
  {
    if i < |items| {
      forall j | 0 <= j < i ensures KeyOf(items[j]) == KeyOf(items[i]) <==> SameItem(items[j], items[i]) {
        KeysAreSame(items[j], items[i]);
      }
    }
  }

  /** An item stays exactly when no earlier one of either page is the same. */
  lemma FirstItemsStay(a: Payload, b: Payload, item: Item)
    ensures item in Merge(a, b).items
      <==> exists i: nat :: Earliest(a.items + b.items, i) && (a.items + b.items)[i] == item
  {
    var all := a.items + b.items;
    MergeKeepsFirstItems(a, b, item);
    forall i: nat ensures Earliest(all, i) <==> FirstOfKey(all, i, KeyOf) {
      EarliestIsFirst(all, i);
    }
  }

  // ---------------------------------------------------------------- the counts

  /** A number that a page claims as its total, in either place. */
  predicate Claims(payload: Payload, total: int) {
    || payload.total == Some(total)
    || (payload.pagination.Some? && payload.pagination.value.total == Some(total))
  }

  lemma TotalIsLeast(payload: Payload, n: int)
    requires 0 <= n
    ensures (forall total: int :: Claims(payload, total) ==> total <= n) <==> TotalOf(payload) <= n
  {
    if payload.total.Some? {
      assert Claims(payload, payload.total.value);
    }
    if payload.pagination.Some? && payload.pagination.value.total.Some? {
      assert Claims(payload, payload.pagination.value.total.value);
    }
  }

  /** The merged total is the least number that covers the items kept and every total that either page claims. */
  lemma MergedTotalIsLeast(a: Payload, b: Payload, n: int)
    ensures Merge(a, b).total.Some?
    ensures Merge(a, b).total.value <= n
      <==> && |Merge(a, b).items| <= n
           && forall total: int :: Claims(a, total) || Claims(b, total) ==> total <= n
  {
    if 0 <= n {
      TotalIsLeast(a, n);
      TotalIsLeast(b, n);
    }
    assert Merge(a, b).total == Some(Max(|MergedItems(a, b)|, Max(TotalOf(a), TotalOf(b))));
    assert (forall total: int :: Claims(a, total) || Claims(b, total) ==> total <= n)
      <==> && (forall total: int :: Claims(a, total) ==> total <= n)
           && (forall total: int :: Claims(b, total) ==> total <= n);
  }

  /** The page a payload writes down, the first when it writes none. */
  function WrittenPage(payload: Payload): int {
    match payload.pagination
    case Some(Pagination(_, Some(page), _, _, _, _, _, _)) => page
    case _ => 1
  }

  lemma PageIsWritten(payload: Payload)
    ensures PageOf(payload) == WrittenPage(payload)
  {
  }

  /** There is a merged pagination when either page has one, and an empty one when neither has a field. */
  lemma MergedPaginationIsThere(first: Option<Pagination>, second: Option<Pagination>, page: int, total: int,
                                count: int)
    ensures var merged := MergedPagination(first, second, page, total, count);
            && (merged.None? <==> first.None? && second.None?)
            && (merged == Some(NO_FIELDS) <==>
                  && (first.Some? || second.Some?)
                  && (first.Some? ==> first.value == NO_FIELDS) && (second.Some? ==> second.value == NO_FIELDS))
  {
  }

  lemma PaginationCounts(first: Option<Pagination>, second: Option<Pagination>, page: int, total: int, count: int)
    requires var merged := MergedPagination(first, second, page, total, count);
             merged.Some? && merged.value != NO_FIELDS
    ensures var p := MergedPagination(first, second, page, total, count).value;
            && p.page == Some(page) && p.total == Some(total) && p.returned == Some(count)
            && p.hasMore == Some(total > count) && p.nextPage == if total > count then Some(page + 1) else None
  {
  }

  /** With any field at all, the merged pagination is on the later page and counts what was merged: whether there is
      more, and then the page after. */
  lemma MergedPaginationCounts(a: Payload, b: Payload)
    requires Merge(a, b).pagination.Some? && Merge(a, b).pagination.value != NO_FIELDS
    ensures var p, total, count := Merge(a, b).pagination.value, Merge(a, b).total.value, |Merge(a, b).items|;
            && p.page == Some(if WrittenPage(a) >= WrittenPage(b) then WrittenPage(a) else WrittenPage(b))
            && p.total == Some(total) && p.returned == Some(count) && p.hasMore == Some(total > count)
            && p.nextPage == if total > count then Some(p.page.value + 1) else None
  {
    PageIsWritten(a);
    PageIsWritten(b);
    PaginationCounts(a.pagination, b.pagination, Max(PageOf(a), PageOf(b)), MergedTotal(a, b), |MergedItems(a, b)|);
  }

  ghost predicate LaterWins<T>(first: Option<T>, second: Option<T>, merged: Option<T>) {
    if second.Some? then merged == second else merged == first
  }

  /** What the merge does not count itself it takes from the later page, and from the earlier one where that says
      nothing: the contract version, page size, card limit and truncation, and the scope's fields. */
  lemma OtherFieldsAreTheLater(a: Payload, b: Payload)
    ensures LaterWins(a.version, b.version, Merge(a, b).version)
    ensures a.pagination.Some? && b.pagination.Some? ==>
              var p, q, m := a.pagination.value, b.pagination.value, Merge(a, b).pagination.value;
              && LaterWins(p.pageSize, q.pageSize, m.pageSize) && LaterWins(p.cardLimit, q.cardLimit, m.cardLimit)
              && LaterWins(p.truncated, q.truncated, m.truncated)
    ensures a.pagination.Some? != b.pagination.Some? ==>
              var p, m := if a.pagination.Some? then a.pagination.value else b.pagination.value,
                          Merge(a, b).pagination.value;
              m.pageSize == p.pageSize && m.cardLimit == p.cardLimit && m.truncated == p.truncated
    ensures a.scope.None? || b.scope.None? ==> LaterWins(a.scope, b.scope, Merge(a, b).scope)
    ensures a.scope.Some? && b.scope.Some? ==>
              Merge(a, b).scope.Some? && ScopeLater(a.scope.value, b.scope.value, Merge(a, b).scope.value)
  {
  }

  ghost predicate ScopeLater(first: Scope, second: Scope, merged: Scope) {
    && LaterWins(first.categoryId, second.categoryId, merged.categoryId)
    && LaterWins(first.name, second.name, merged.name) && LaterWins(first.url, second.url, merged.url)
    && LaterWins(first.includesDescendants, second.includesDescendants, merged.includesDescendants)
    && LaterWins(first.directAddOnly, second.directAddOnly, merged.directAddOnly)
  }

  /** The query is the later page's without the blanks around it, and the earlier page's as it is when that leaves
      nothing or a single zero. */
  lemma QueryIsTheLater(a: Payload, b: Payload, stripped: string)
    requires Stripped(b.query, stripped)
    ensures Merge(a, b).query == if stripped == "" || stripped == "0" then a.query else stripped
  {
    TrimStrips(b.query);
    StrippedOnce(b.query, stripped, Trim(b.query));
  }
}
