/** Normalising a stored or incoming product payload: defaults, clamps, deduplication and the visible limit. */
module ProductNormalizer {
  import opened Sums
  import opened FirstOccurrences
  import opened ProductPages

  const UNPAGED_LIMIT := 20
  const NAME_LENGTH := 255

  function Take<T>(xs: seq<T>, n: nat): (taken: seq<T>)
    ensures |taken| <= n && taken <= xs && (|xs| <= n ==> taken == xs) && (|xs| >= n ==> |taken| == n)
  {
    if |xs| <= n then xs else xs[..n]
  }

  // ---------------------------------------------------------------- pagination, scope, items

  function NormalPagination(raw: Pagination): Pagination {
    var page, returned := Max(1, Or(raw.page, 1)), Max(0, Or(raw.returned, 0));
    var hasMore := Or(raw.hasMore, false);
    Pagination(Some(Max(returned, Or(raw.total, 0))), Some(page), Some(Between(1, 10, Or(raw.pageSize, 5))),
        Some(returned), Some(hasMore),
               if hasMore then Some(Max(page + 1, Or(raw.nextPage, 0))) else None,
               Some(Between(1, 100, Or(raw.cardLimit, 20))), Some(Or(raw.truncated, false)))
  }

  function VisibleLimit(raw: Option<Pagination>): (limit: nat)
    ensures limit >= 1
  {
    if raw.None? then
      UNPAGED_LIMIT
    else
      var p := NormalPagination(raw.value);
      Between(1, p.cardLimit.value, p.page.value * p.pageSize.value)
  }

  function StartsWith(s: string, prefix: string): bool {
    prefix <= Lower(s)
  }

  function NormalUrl(url: string): string {
    var trimmed := Trim(url);
    if StartsWith(trimmed, "http://") || StartsWith(trimmed, "https://") || StartsWith(trimmed, "/") then trimmed
        else ""
  }

  function NormalScope(raw: Scope): Scope {
    Scope(if Or(raw.categoryId, 0) == 0 then None else raw.categoryId,
          Some(Take(Trim(Or(raw.name, "")), NAME_LENGTH)), Some(NormalUrl(Or(raw.url, ""))),
          Some(Or(raw.includesDescendants, false)), Some(Or(raw.directAddOnly, false)))
  }

  function Text(s: string): string { s }

  function TrimmedValues(values: seq<string>): (kept: seq<string>)
    ensures forall value :: value in kept ==> !Falsy(value) && Trim(value) == value
  {
    if values == [] then [] else (if Falsy(Trim(values[0])) then [] else [Trim(values[0])]) + TrimmedValues(values[1..])
  }

  /** An option whose values are all blank is dropped. */
  predicate HasValues(option: Variant) {
    TrimmedValues(option.values) != []
  }

  function NormalVariant(option: Variant): Variant {
    Variant(Trim(option.code), Trim(option.caption), Gather([], TrimmedValues(option.values), Text))
  }

  function NormalVariants(options: seq<Variant>): seq<Variant> {
    if options == [] then []
    else (if HasValues(options[0]) then [NormalVariant(options[0])] else []) + NormalVariants(options[1..])
  }

  function NormalItem(item: Item): Item {
    item.(details := item.details.(variants := NormalVariants(item.details.variants)))
  }

  function NormalItems(items: seq<Item>): (normal: seq<Item>)
    ensures |normal| == |items| && forall i :: 0 <= i < |items| ==> normal[i] == NormalItem(items[i])
  {
    seq(|items|, i requires 0 <= i < |items| => NormalItem(items[i]))
  }

  // ---------------------------------------------------------------- the payload

  function NormalIds(ids: seq<int>, items: seq<Item>, limit: nat): seq<int> {
    Take(UniqueIds(Take(UniqueIds(ids), limit) + Positive(ItemIds(items))), limit)
  }

  function LegacyTotal(payload: Payload): int {
    Max(|UniqueIds(payload.ids)|, |payload.items|)
  }

  /** Contract version 1 counts for itself; version 2 trusts the pagination it was given. */
  function OutputPagination(raw: Pagination, version: int, legacyTotal: int, returned: int): Pagination {
    var p := NormalPagination(raw);
    var hasMore := p.page.value * p.pageSize.value < legacyTotal;
    var counted := if version < 2 then
      p.(total := Some(legacyTotal), hasMore := Some(hasMore), nextPage := if hasMore then Some(p.page.value + 1)
          else None) else p;
    counted.(returned := Some(returned))
  }

  function Normalize(payload: Payload): Option<Payload> {
    var version, limit := Between(1, 2, Or(payload.version, 1)), VisibleLimit(payload.pagination);
    var items := NormalItems(Take(payload.items, limit));
    var ids := NormalIds(payload.ids, items, limit);
    if ids == [] && items == [] then
      None
    else
      Some(Payload(Some(version), payload.query, ids, items,
                   Some(if version < 2 then LegacyTotal(payload) else Or(payload.total, |ids|)),
                   if payload.pagination.None? then None
                   else Some(OutputPagination(payload.pagination.value, version, LegacyTotal(payload), |items|)),
                   if payload.scope.None? then None else Some(NormalScope(payload.scope.value))))
  }

  method NormalizeProductPayload(payload: Option<Payload>) returns (normalized: Option<Payload>)
    ensures normalized == if payload.None? then None else Normalize(payload.value)
  {
    if payload.None? {
      return None;
    }
    var raw := payload.value;
    var version := Between(1, 2, Or(raw.version, 1));
    var rawIds := UniqueIds(raw.ids);
    var legacyTotal := Max(|rawIds|, |raw.items|);
    var limit := VisibleLimit(raw.pagination);
    var ids, items := GatherItems(Take(rawIds, limit), Take(raw.items, limit));
    ids := Take(UniqueIds(ids), limit);
    if ids == [] && items == [] {
      return None;
    }
    var total := if version < 2 then legacyTotal else if raw.total.Some? then raw.total.value else |ids|;
    var pagination: Option<Pagination> := None;
    if raw.pagination.Some? {
      var p := NormalPagination(raw.pagination.value);
      if version < 2 {
        var hasMore := p.page.value * p.pageSize.value < legacyTotal;
        p := p.(total := Some(legacyTotal), hasMore := Some(hasMore),
            nextPage := if hasMore then Some(p.page.value + 1) else None);
      }
      pagination := Some(p.(returned := Some(|items|)));
    }
    var scope := if raw.scope.Some? then Some(NormalScope(raw.scope.value)) else None;
    normalized := Some(Payload(Some(version), raw.query, ids, items, Some(total), pagination, scope));
  }

  /** The items loop: each is normalised, and its id joins the list when positive. */
  method GatherItems(start: seq<int>, rawItems: seq<Item>) returns (ids: seq<int>, items: seq<Item>)
    ensures items == NormalItems(rawItems) && ids == start + Positive(ItemIds(items))
  {
    ids, items := start, [];
    var allIds := ItemIds(NormalItems(rawItems));
    for k := 0 to |rawItems|
      invariant items == NormalItems(rawItems)[..k]
      invariant ids == start + Positive(allIds[..k])
    {
      var item := NormalItem(rawItems[k]);
      PositiveNext(allIds, k);
      if item.id > 0 {
        ids := ids + [item.id];
      }
      items := items + [item];
    }
    assert allIds[..|rawItems|] == allIds;
  }

  // ---------------------------------------------------------------- normalising twice

  ghost predicate AllTrimmed(values: seq<string>) {
    forall i :: 0 <= i < |values| ==> !Falsy(values[i]) && Trim(values[i]) == values[i]
  }

  lemma {:induction false} TrimmedTwice(values: seq<string>)
    requires AllTrimmed(values)
    ensures TrimmedValues(values) == values
  {
    if values != [] {
      TrimmedTwice(values[1..]);
      assert [values[0]] + values[1..] == values;
    }
  }

  lemma GatheredAreTrimmed(values: seq<string>)
    ensures AllTrimmed(Gather([], TrimmedValues(values), Text))
  {
    var kept := Gather([], TrimmedValues(values), Text);
    GatherKeys([], TrimmedValues(values), Text);
    forall i | 0 <= i < |kept| ensures !Falsy(kept[i]) && Trim(kept[i]) == kept[i] {
      assert kept[i] in TrimmedValues(values);
    }
  }

  lemma ValuesTwice(values: seq<string>)
    ensures var kept := Gather([], TrimmedValues(values), Text);
            && TrimmedValues(kept) == kept && Gather([], kept, Text) == kept
            && (kept == [] <==> TrimmedValues(values) == [])
  {
    var trimmed := TrimmedValues(values);
    var kept := Gather([], trimmed, Text);
    GatherKeys([], trimmed, Text);
    GatheredAreTrimmed(values);
    TrimmedTwice(kept);
    GatherDistinct([], kept, Text);
    if trimmed != [] {
      assert trimmed[0] in trimmed;
    }
  }

  lemma VariantTwice(option: Variant)
    requires HasValues(option)
    ensures HasValues(NormalVariant(option)) && NormalVariant(NormalVariant(option)) == NormalVariant(option)
  {
    ValuesTwice(option.values);
  }

  lemma {:induction false} VariantsTwice(options: seq<Variant>)
    ensures NormalVariants(NormalVariants(options)) == NormalVariants(options)
  {
    if options != [] {
      var rest := NormalVariants(options[1..]);
      VariantsTwice(options[1..]);
      if HasValues(options[0]) {
        VariantTwice(options[0]);
        assert ([NormalVariant(options[0])] + rest)[1..] == rest;
      } else {
        assert [] + rest == rest;
      }
    }
  }

  lemma ItemsTwice(items: seq<Item>)
    ensures NormalItems(NormalItems(items)) == NormalItems(items)
  {
    forall i | 0 <= i < |items| ensures NormalItem(NormalItem(items[i])) == NormalItem(items[i]) {
      VariantsTwice(items[i].details.variants);
    }
  }

  lemma UniqueIdsAreUnique(ids: seq<int>)
    ensures Distinct(UniqueIds(ids), Self) && forall id :: id in UniqueIds(ids) ==> id != 0
  {
    GatherKeys([], Nonzero(ids), Self);
  }

  /** Ids that already start a deduplicated, truncated list stay there when the same positive ids join again. */
  lemma IdsTwice(start: seq<int>, positive: seq<int>, limit: nat)
    requires forall id :: id in start + positive ==> id != 0
    ensures var ids := Take(UniqueIds(start + positive), limit);
            UniqueIds(ids) == ids && Take(UniqueIds(Take(ids, limit) + positive), limit) == ids
  {
    var all := UniqueIds(start + positive);
    var ids := Take(all, limit);
    UniqueIdsAreUnique(start + positive);
    NonzeroIsWhole(start + positive);
    forall id | id in ids ensures id != 0 {
      assert id in all;
    }
    NonzeroIsWhole(ids);
    GatherDistinct([], ids, Self);
    forall id | id in ids + positive ensures id != 0 {
      assert id in all || id in start + positive;
    }
    NonzeroIsWhole(ids + positive);
    GatherAppend([], ids, positive, Self);
    if |all| <= limit {
      GatherKeys([], start + positive, Self);
      forall id | id in positive ensures Holds(ids, Self(id), Self) {
        assert id in start + positive;
      }
      GatherAbsorbs(ids, positive, Self);
    } else {
      GatherExtends(ids, positive, Self);
    }
  }

  /** The ids of a normalised payload, and the items, come out of a second normalisation unchanged. */
  lemma IdsAndItemsTwice(payload: Payload, n: Payload)
    requires Normalize(payload) == Some(n)
    ensures VisibleLimit(n.pagination) == VisibleLimit(payload.pagination)
    ensures UniqueIds(n.ids) == n.ids && |n.items| <= VisibleLimit(n.pagination)
    ensures NormalItems(n.items) == n.items && NormalIds(n.ids, n.items, VisibleLimit(n.pagination)) == n.ids
  {
    var limit := VisibleLimit(payload.pagination);
    LimitTwice(payload, n);
    ItemsTwice(Take(payload.items, limit));
    UniqueIdsAreUnique(payload.ids);
    forall id | id in Take(UniqueIds(payload.ids), limit) ensures id != 0 {
      assert id in UniqueIds(payload.ids);
    }
    IdsTwice(Take(UniqueIds(payload.ids), limit), Positive(ItemIds(n.items)), limit);
  }

  lemma LimitTwice(payload: Payload, n: Payload)
    requires Normalize(payload) == Some(n)
    ensures VisibleLimit(n.pagination) == VisibleLimit(payload.pagination)
  {
    if payload.pagination.Some? {
      var p, q := NormalPagination(payload.pagination.value), NormalPagination(n.pagination.value);
      assert q.page == p.page && q.pageSize == p.pageSize && q.cardLimit == p.cardLimit;
    }
  }

  /** The ids that a payload names itself or through its items, before any cut. */
  function JoinedIds(payload: Payload): seq<int> {
    UniqueIds(UniqueIds(payload.ids) + Positive(ItemIds(payload.items)))
  }

  /** For version 2, a pagination total that covers the visible items; for version 1, a total within the visible limit
      that the limit itself or the joined ids do not exceed. */
  ghost predicate CountsSettle(payload: Payload) {
    var limit, total := VisibleLimit(payload.pagination), LegacyTotal(payload);
    if Or(payload.version, 1) < 2 then
      total <= limit && (total == limit || |JoinedIds(payload)| <= total)
    else
      payload.pagination.Some? ==>
        NormalPagination(payload.pagination.value).total.value >= |Take(payload.items, limit)|
  }

  lemma JoinedIdsGrow(payload: Payload)
    ensures |UniqueIds(payload.ids)| <= |JoinedIds(payload)|
  {
    var ids, positive := UniqueIds(payload.ids), Positive(ItemIds(payload.items));
    UniqueIdsAreUnique(payload.ids);
    NonzeroIsWhole(ids + positive);
    GatherDistinct([], ids, Self);
    assert [] + ids == ids;
    GatherAppend([], ids, positive, Self);
    GatherExtends(ids, positive, Self);
  }

  /** A version 1 total counts the same again exactly when nothing was cut off and no item's id was added. */
  lemma LegacyTotalTwice(payload: Payload, n: Payload)
    requires Normalize(payload) == Some(n) && UniqueIds(n.ids) == n.ids
    ensures LegacyTotal(n) == LegacyTotal(payload)
      <==> LegacyTotal(payload) <= VisibleLimit(payload.pagination)
           && (LegacyTotal(payload) == VisibleLimit(payload.pagination) || |JoinedIds(payload)| <= LegacyTotal(payload))
  {
    var limit := VisibleLimit(payload.pagination);
    JoinedIdsGrow(payload);
    if LegacyTotal(payload) <= limit {
      assert Take(UniqueIds(payload.ids), limit) == UniqueIds(payload.ids);
      assert Take(payload.items, limit) == payload.items;
      assert ItemIds(n.items) == ItemIds(payload.items);
      assert n.ids == Take(JoinedIds(payload), limit);
    }
  }

  /** A scope name that the cut to its length does not leave with a blank at the end. */
  ghost predicate NameSettles(scope: Scope) {
    var name := Take(Trim(Or(scope.name, "")), NAME_LENGTH);
    name == "" || !Blank(name[|name| - 1])
  }

  /** What a payload must show for its normal form to be left alone by a second normalisation. */
  ghost predicate Settles(payload: Payload) {
    CountsSettle(payload) && (payload.scope.Some? ==> NameSettles(payload.scope.value))
  }

  lemma ScopeTwice(raw: Scope)
    ensures var scope := NormalScope(raw);
            NormalScope(scope) == scope <==> NameSettles(raw)
  {
    var trimmed := Trim(Or(raw.name, ""));
    var name := Take(trimmed, NAME_LENGTH);
    if name != "" {
      assert name[0] == trimmed[0];
    }
  }

  lemma PaginationTwice(raw: Pagination, version: int, legacyTotal: int, legacyTotal': int, returned: nat)
    requires 1 <= version <= 2
    ensures var p := OutputPagination(raw, version, legacyTotal, returned);
            OutputPagination(p, version, legacyTotal', returned) == p
            <==> if version < 2 then legacyTotal' == legacyTotal else p.total.value >= returned
  {
  }

  lemma CountsTwice(payload: Payload, n: Payload)
    requires Normalize(payload) == Some(n) && UniqueIds(n.ids) == n.ids
    ensures var version := n.version.value;
            && (n.pagination.Some? ==>
                  (OutputPagination(n.pagination.value, version, LegacyTotal(n), |n.items|) == n.pagination.value
                   <==> if version < 2 then LegacyTotal(n) == LegacyTotal(payload)
                       else n.pagination.value.total.value >= |n.items|))
            && (CountsSettle(payload)
                <==> if version < 2 then LegacyTotal(n) == LegacyTotal(payload)
                     else n.pagination.Some? ==> n.pagination.value.total.value >= |n.items|)
  {
    LegacyTotalTwice(payload, n);
    if payload.pagination.Some? {
      PaginationTwice(payload.pagination.value, n.version.value, LegacyTotal(payload), LegacyTotal(n), |n.items|);
    }
  }

  /** Normalising twice is normalising once exactly for payloads that settle; ids and items never change again. */
  lemma NormalizeTwice(payload: Payload, n: Payload)
    requires Normalize(payload) == Some(n)
    ensures Normalize(n).Some? && Normalize(n).value.ids == n.ids && Normalize(n).value.items == n.items
    ensures Normalize(n) == Some(n) <==> Settles(payload)
  {
    IdsAndItemsTwice(payload, n);
    var legacyTotal := LegacyTotal(n);
    var version := n.version.value;
    assert Normalize(n) == Some(n.(
      total := Some(if version < 2 then legacyTotal else n.total.value),
      pagination := if n.pagination.None? then None
          else Some(OutputPagination(n.pagination.value, version, legacyTotal, |n.items|)),
      scope := if n.scope.None? then None else Some(NormalScope(n.scope.value))));
    CountsTwice(payload, n);
    if payload.scope.Some? {
      ScopeTwice(payload.scope.value);
    }
  }

  function Listing(version: int, ids: seq<int>, items: seq<Item>, pagination: Option<Pagination>,
                   scope: Option<Scope>): Payload {
    Payload(Some(version), "", ids, items, None, pagination, scope)
  }

  /** A version 1 list cut to its first page counts itself anew: a total of two becomes one. */
  lemma LegacyTotalDrifts(x: int, y: int)
    requires x != 0 && y != 0 && x != y
    ensures var onePerPage := NO_FIELDS.(page := Some(1), pageSize := Some(1));
            var first := Normalize(Listing(1, [x, y], [], Some(onePerPage), None));
            && first.Some? && Normalize(first.value).Some? && Normalize(first.value) != first
            && first.value.total == Some(2) && Normalize(first.value).value.total == Some(1)
  {
    UniqueOf([x, y]);
    UniqueOf([x]);
    assert Take([x, y], 1) == [x] && [x] + [] == [x];
  }

  lemma UniqueOf(ids: seq<int>)
    requires Distinct(ids, Self) && forall id :: id in ids ==> id != 0
    ensures UniqueIds(ids) == ids
  {
    NonzeroIsWhole(ids);
    GatherDistinct([], ids, Self);
  }

  /** A version 2 pagination that claims fewer products than it shows is raised the second time: none becomes one. */
  lemma ShortTotalDrifts(item: Item)
    ensures var first := Normalize(Listing(2, [], [item], Some(NO_FIELDS), None));
            && first.Some? && Normalize(first.value).Some? && Normalize(first.value) != first
            && first.value.pagination.value.total == Some(0)
            && Normalize(first.value).value.pagination.value.total == Some(1)
  {
  }

  /** A scope name cut just after a blank loses the blank the second time. */
  lemma CutNameDrifts(id: int)
    requires id != 0
    ensures var name := seq(254, _ => 'a') + " b";
            var first := Normalize(Listing(2, [id], [], None, Some(Scope(None, Some(name), None, None, None))));
            && first.Some? && Normalize(first.value).Some? && Normalize(first.value) != first
            && first.value.scope.value.name == Some(name[..255])
            && Normalize(first.value).value.scope.value.name == Some(name[..254])
  {
    var name := seq(254, _ => 'a') + " b";
    UniqueOf([id]);
    assert [id] + [] == [id];
    assert Trim(name) == name && Take(name, NAME_LENGTH) == name[..255];
    assert name[..255][254] == ' ' && name[..255][..254] == name[..254];
    assert TrimStart(name[..255]) == name[..255] && TrimEnd(name[..255]) == TrimEnd(name[..254]) == name[..254];
  }

  // ---------------------------------------------------------------- what a normal form shows

  lemma NormalIdsKeepPositive(ids: seq<int>, items: seq<Item>, limit: nat, i: nat)
    requires i < |items| && items[i].id > 0
    ensures items[i].id in NormalIds(ids, items, limit) || |NormalIds(ids, items, limit)| == limit
  {
    var start, positive := Take(UniqueIds(ids), limit), Positive(ItemIds(items));
    GatherKeys([], Nonzero(start + positive), Self);
    assert ItemIds(items)[i] == items[i].id;
    assert items[i].id in start + positive;
    assert items[i].id in Nonzero(start + positive);
  }

  /** At most the visible limit of distinct non-zero ids, among them every shown item's unless the list is full. */
  lemma NormalIdsForm(payload: Payload, n: Payload, i: nat)
    requires Normalize(payload) == Some(n)
    ensures Distinct(n.ids, Self) && (forall id :: id in n.ids ==> id != 0)
    ensures |n.ids| <= VisibleLimit(payload.pagination) && |n.items| <= VisibleLimit(payload.pagination)
    ensures i < |n.items| && n.items[i].id > 0 ==> n.items[i].id in n.ids || |n.ids| == VisibleLimit(payload.pagination)
  {
    IdsAndItemsTwice(payload, n);
    UniqueIdsAreUnique(n.ids);
    if i < |n.items| && n.items[i].id > 0 {
      NormalIdsKeepPositive(payload.ids, n.items, VisibleLimit(payload.pagination), i);
    }
  }

  /** A next page exactly when there is more, past the current one, and the count of what is shown. */
  lemma NormalPaginationForm(payload: Payload, n: Payload)
    requires Normalize(payload) == Some(n) && n.pagination.Some?
    ensures n.pagination.value.returned == Some(|n.items|)
    ensures n.pagination.value.nextPage.Some? <==> n.pagination.value.hasMore == Some(true)
    ensures n.pagination.value.nextPage.Some? ==> n.pagination.value.nextPage.value > n.pagination.value.page.value
  {
  }
}
