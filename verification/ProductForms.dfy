/** What a normalised payload looks like, field by field, and which payloads look like that already. */
module ProductForms {
  import opened Sums
  import opened FirstOccurrences
  import opened ProductPages
  import opened ProductNormalizer

  function Given<T>(field: Option<T>, missing: T): T {
    match field case Some(value) => value case None => missing
  }

  /** The nearest number from one up to a most. */
  function Nearest(most: int, x: int): int
    requires most >= 1
  {
    if x < 1 then 1 else if x > most then most else x
  }

  // ---------------------------------------------------------------- how much is visible

  /** Twenty without a pagination; otherwise what its pages so far hold, up to its card limit. The page size counts as
      one to ten, five when missing, the card limit as one to a hundred, twenty when missing, the page as one or more.
      */
  function Visible(raw: Option<Pagination>): int {
    if raw.None? then 20 else
      var p := raw.value;
      var page := if Given(p.page, 1) > 1 then p.page.value else 1;
      var held, cards := page * Nearest(10, Given(p.pageSize, 5)), Nearest(100, Given(p.cardLimit, 20));
      if held < cards then held else cards
  }

  lemma HeldIsPositive(page: int, size: int)
    requires page >= 1 && size >= 1
    ensures page * size >= 1
  {
  }

  lemma LimitIsVisible(raw: Option<Pagination>)
    ensures VisibleLimit(raw) == Visible(raw) >= 1
  {
    if raw.Some? {
      var p := NormalPagination(raw.value);
      HeldIsPositive(p.page.value, p.pageSize.value);
    }
  }

  // ---------------------------------------------------------------- the pagination

  /** The pagination of a normalised payload: every field is there, in its range; version 1 counts anew what there is,
      version 2 keeps what it was told, with a next page past this one when there is more. */
  ghost predicate PaginationFrom(raw: Pagination, version: int, all: int, shown: int, p: Pagination) {
    && p.page == Some(if Given(raw.page, 1) > 1 then raw.page.value else 1)
    && p.pageSize == Some(Nearest(10, Given(raw.pageSize, 5)))
    && p.cardLimit == Some(Nearest(100, Given(raw.cardLimit, 20)))
    && p.truncated == Some(Given(raw.truncated, false)) && p.returned == Some(shown)
    && if version == 1 then
         var more := p.page.value * p.pageSize.value < all;
         && p.total == Some(all) && p.hasMore == Some(more)
         && p.nextPage == if more then Some(p.page.value + 1) else None
       else
         var more, next := Given(raw.hasMore, false), Given(raw.nextPage, 0);
         && p.total.Some? && p.total.value >= 0 && p.total.value >= Given(raw.returned, 0)
         && p.total.value >= Given(raw.total, 0) && p.total.value in {0, Given(raw.returned, 0), Given(raw.total, 0)}
         && p.hasMore == Some(more)
         && p.nextPage == if !more then None else if next > p.page.value then Some(next) else Some(p.page.value + 1)
  }

  lemma PaginationIsFrom(raw: Pagination, version: int, all: int, shown: int)
    requires 1 <= version <= 2
    ensures PaginationFrom(raw, version, all, shown, OutputPagination(raw, version, all, shown))
  {
  }

  // ---------------------------------------------------------------- the scope

  /** A link to the web or within the shop. */
  ghost predicate IsLink(url: string) {
    || (|url| >= 7 && SameLetters(url[..7], "http://"))
    || (|url| >= 8 && SameLetters(url[..8], "https://"))
    || (|url| >= 1 && url[0] == '/')
  }

  /** The category unless it is zero, its name without blanks around it and cut at 255 letters, its address when it is a
      link, and its flags. */
  ghost predicate ScopeFrom(raw: Scope, name: string, url: string, scope: Scope)
    requires Stripped(Given(raw.name, ""), name) && Stripped(Given(raw.url, ""), url)
  {
    && scope.categoryId == (if raw.categoryId == Some(0) then None else raw.categoryId)
    && scope.name == Some(if |name| <= 255 then name else name[..255])
    && scope.url == Some(if IsLink(url) then url else "")
    && scope.includesDescendants == Some(Given(raw.includesDescendants, false))
    && scope.directAddOnly == Some(Given(raw.directAddOnly, false))
  }

  lemma PrefixIsSameLetters(s: string, prefix: string)
    requires Lower(prefix) == prefix
    ensures StartsWith(s, prefix) <==> |s| >= |prefix| && SameLetters(s[..|prefix|], prefix)
  {
    if |s| >= |prefix| {
      LowerIsSameLetters(s[..|prefix|], prefix);
      assert Lower(s)[..|prefix|] == Lower(s[..|prefix|]);
    }
  }

  lemma LinksStartLikeLinks(url: string)
    ensures IsLink(url) <==> StartsWith(url, "http://") || StartsWith(url, "https://") || StartsWith(url, "/")
  {
    PrefixIsSameLetters(url, "http://");
    PrefixIsSameLetters(url, "https://");
    PrefixIsSameLetters(url, "/");
  }

  lemma LinkIsKept(raw: string, url: string)
    requires Stripped(raw, url)
    ensures Trim(raw) == url && NormalUrl(raw) == if IsLink(url) then url else ""
  {
    TrimStrips(raw);
    StrippedOnce(raw, url, Trim(raw));
    LinksStartLikeLinks(url);
  }

  lemma ScopeIsFrom(raw: Scope, name: string, url: string)
    requires Stripped(Given(raw.name, ""), name) && Stripped(Given(raw.url, ""), url)
    ensures ScopeFrom(raw, name, url, NormalScope(raw))
  {
    LinkIsKept(Given(raw.name, ""), name);
    LinkIsKept(Given(raw.url, ""), url);
  }

  // ---------------------------------------------------------------- options and their values

  /** A value that stays: not blank, and not a single zero. */
  ghost predicate Says(value: string, stripped: string) {
    Stripped(value, stripped) && stripped != "" && stripped != "0"
  }

  lemma ValueSays(value: string, stripped: string)
    ensures Says(value, stripped) <==> !Falsy(Trim(value)) && stripped == Trim(value)
  {
    TrimStrips(value);
    if Stripped(value, stripped) {
      StrippedOnce(value, stripped, Trim(value));
    }
  }

  lemma {:induction false} ValuesKept(values: seq<string>, kept: string)
    ensures kept in TrimmedValues(values) <==> exists i :: 0 <= i < |values| && Says(values[i], kept)
  {
    if values != [] {
      ValuesKept(values[1..], kept);
      ValueSays(values[0], kept);
      forall i | 0 <= i < |values| - 1 ensures values[1..][i] == values[i + 1] {
      }
      if exists i :: 0 <= i < |values| && Says(values[i], kept) {
        var i :| 0 <= i < |values| && Says(values[i], kept);
        if i > 0 {
          assert values[1..][i - 1] == values[i];
        }
      }
    }
  }

  /** The options that stay, by position: those with a value that says something. */
  ghost predicate OptionFrom(raw: Variant, option: Variant) {
    && Stripped(raw.code, option.code) && Stripped(raw.caption, option.caption)
    && (forall value :: value in option.values <==> exists i :: 0 <= i < |raw.values| && Says(raw.values[i], value))
    && (forall i, j :: 0 <= i < j < |option.values| ==> option.values[i] != option.values[j])
  }

  lemma OptionKeepsValue(raw: Variant, value: string)
    ensures value in NormalVariant(raw).values <==> exists i :: 0 <= i < |raw.values| && Says(raw.values[i], value)
  {
    var trimmed, kept := TrimmedValues(raw.values), NormalVariant(raw).values;
    GatherKeys([], trimmed, Text);
    ValuesKept(raw.values, value);
    if value in trimmed {
      var i :| 0 <= i < |kept| && Text(kept[i]) == Text(value);
    }
  }

  lemma OptionIsFrom(raw: Variant)
    ensures OptionFrom(raw, NormalVariant(raw))
    ensures HasValues(raw) <==> NormalVariant(raw).values != []
  {
    TrimStrips(raw.code);
    TrimStrips(raw.caption);
    GatherKeys([], TrimmedValues(raw.values), Text);
    ValuesTwice(raw.values);
    forall value
      ensures value in NormalVariant(raw).values <==> exists i :: 0 <= i < |raw.values| && Says(raw.values[i], value)
    {
      OptionKeepsValue(raw, value);
    }
  }

  /** Options become options in their order, each from its own; one is left out exactly when none of its values says
      anything. */
  ghost predicate OptionsFrom(raw: seq<Variant>, options: seq<Variant>) {
    if raw == [] then
      options == []
    else if exists i, value :: 0 <= i < |raw[0].values| && Says(raw[0].values[i], value) then
      options != [] && OptionFrom(raw[0], options[0]) && OptionsFrom(raw[1..], options[1..])
    else
      OptionsFrom(raw[1..], options)
  }

  lemma HasValuesSays(raw: Variant)
    ensures HasValues(raw) <==> exists i, value :: 0 <= i < |raw.values| && Says(raw.values[i], value)
  {
    var trimmed := TrimmedValues(raw.values);
    if trimmed != [] {
      ValuesKept(raw.values, trimmed[0]);
      assert trimmed[0] in trimmed;
    }
    forall i, value | 0 <= i < |raw.values| && Says(raw.values[i], value) ensures trimmed != [] {
      ValuesKept(raw.values, value);
    }
  }

  lemma {:induction false} OptionsAreFrom(raw: seq<Variant>)
    ensures OptionsFrom(raw, NormalVariants(raw))
  {
    if raw != [] {
      var rest := NormalVariants(raw[1..]);
      OptionsAreFrom(raw[1..]);
      OptionIsFrom(raw[0]);
      HasValuesSays(raw[0]);
      assert ([NormalVariant(raw[0])] + rest)[1..] == rest && [] + rest == rest;
    }
  }

  // ---------------------------------------------------------------- ids

  ghost function NonzeroIds(ids: seq<int>): set<int> {
    set id | id in ids && id != 0
  }

  lemma {:induction false} DistinctCount(ids: seq<int>)
    requires Distinct(ids, Self)
    ensures |set id | id in ids| == |ids|
  {
    if ids != [] {
      var front, last := ids[..|ids| - 1], ids[|ids| - 1];
      DistinctCount(front);
      assert (set id | id in ids) == (set id | id in front) + {last};
      assert last !in front;
    }
  }

  /** Version 1's count of all there is: the different product ids, or the items, whichever are more. */
  lemma LegacyTotalCounts(payload: Payload)
    ensures LegacyTotal(payload)
         == if |NonzeroIds(payload.ids)| >= |payload.items| then |NonzeroIds(payload.ids)| else |payload.items|
  {
    var unique := UniqueIds(payload.ids);
    UniqueIdsAreUnique(payload.ids);
    DistinctCount(unique);
    assert (set id | id in unique) == NonzeroIds(payload.ids) by {
      forall id | id in NonzeroIds(payload.ids) ensures id in unique {
        UniqueKeeps(payload.ids, id);
      }
      forall id | id in unique ensures id in NonzeroIds(payload.ids) {
        UniqueKeeps(payload.ids, id);
      }
    }
  }

  lemma UniqueKeeps(ids: seq<int>, id: int)
    ensures id in UniqueIds(ids) <==> id in ids && id != 0
  {
    var unique := UniqueIds(ids);
    GatherKeys([], Nonzero(ids), Self);
    if id in Nonzero(ids) {
      var i :| 0 <= i < |unique| && Self(unique[i]) == Self(id);
    }
  }

  /** The normalised ids come from the payload's own or from a shown item; own ids that are already different and fit
      stand first and in their order, and no own id is left out while there is room. */
  lemma IdsFrom(payload: Payload, n: Payload, id: int)
    requires Normalize(payload) == Some(n)
    ensures id in n.ids ==> id != 0 && (id in payload.ids || (id > 0 && id in ItemIds(n.items)))
    ensures |n.ids| < Visible(payload.pagination) && id != 0 && id in payload.ids ==> id in n.ids
    ensures Distinct(payload.ids, Self) && 0 !in payload.ids && |payload.ids| <= Visible(payload.pagination) ==>
              payload.ids <= n.ids
  {
    var limit := VisibleLimit(payload.pagination);
    LimitIsVisible(payload.pagination);
    var start, positive := Take(UniqueIds(payload.ids), limit), Positive(ItemIds(n.items));
    var all := UniqueIds(start + positive);
    UniqueKeeps(start + positive, id);
    UniqueKeeps(payload.ids, id);
    OwnIdsFirst(payload.ids, positive, limit);
  }

  lemma OwnIdsFirst(ids: seq<int>, positive: seq<int>, limit: nat)
    requires forall id :: id in positive ==> id > 0
    ensures var start := Take(UniqueIds(ids), limit);
            start <= Take(UniqueIds(start + positive), limit)
    ensures Distinct(ids, Self) && 0 !in ids ==> UniqueIds(ids) == ids
  {
    var start := Take(UniqueIds(ids), limit);
    UniqueIdsAreUnique(ids);
    forall id | id in start + positive ensures id != 0 {
      if id in start {
        UniqueKeeps(ids, id);
      }
    }
    NonzeroIsWhole(start + positive);
    GatherAppend([], start, positive, Self);
    assert [] + start == start;
    GatherDistinct([], start, Self);
    GatherExtends(start, positive, Self);
    if Distinct(ids, Self) && 0 !in ids {
      NonzeroIsWhole(ids);
      assert [] + ids == ids;
      GatherDistinct([], ids, Self);
    }
  }

  // ---------------------------------------------------------------- the payload

  /** Only a payload without a product id and without an item has no normal form. */
  lemma NothingToShow(payload: Payload)
    ensures Normalize(payload).None? <==> payload.items == [] && forall id :: id in payload.ids ==> id == 0
  {
    var limit := VisibleLimit(payload.pagination);
    var items := NormalItems(Take(payload.items, limit));
    var start, positive := Take(UniqueIds(payload.ids), limit), Positive(ItemIds(items));
    OwnIdsFirst(payload.ids, positive, limit);
    if UniqueIds(payload.ids) != [] {
      UniqueKeeps(payload.ids, UniqueIds(payload.ids)[0]);
      assert start != [] && start[0] == UniqueIds(payload.ids)[0];
    }
    forall id | id in payload.ids && id != 0 ensures UniqueIds(payload.ids) != [] {
      UniqueKeeps(payload.ids, id);
    }
    if UniqueIds(payload.ids) == [] && payload.items == [] {
      assert start + positive == [];
    }
  }

  /** The shown items are the first ones, as many as are visible, each with its own content and its options tidied. */
  ghost predicate ItemsFrom(raw: seq<Item>, visible: int, items: seq<Item>) {
    && |items| == (if |raw| <= visible then |raw| else visible)
    && forall i :: 0 <= i < |items| ==>
         && items[i] == raw[i].(details := raw[i].details.(variants := items[i].details.variants))
         && OptionsFrom(raw[i].details.variants, items[i].details.variants)
  }

  /** A normalised payload: the version is one or two, one when missing; the query is as it was; the total is version
      1's own count, or version 2's word and otherwise the ids; items, pagination and scope are as above. */
  lemma NormalFormIs(payload: Payload, n: Payload)
    requires Normalize(payload) == Some(n)
    ensures n.version == Some(if Given(payload.version, 1) >= 2 then 2 else 1) && n.query == payload.query
    ensures ItemsFrom(payload.items, Visible(payload.pagination), n.items)
    ensures n.total == Some(if n.version == Some(1) then LegacyTotal(payload) else Given(payload.total, |n.ids|))
    ensures payload.pagination.None? <==> n.pagination.None?
    ensures payload.pagination.Some? ==>
              PaginationFrom(payload.pagination.value, n.version.value, LegacyTotal(payload), |n.items|,
                             n.pagination.value)
    ensures payload.scope.None? <==> n.scope.None?
    ensures payload.scope.Some? ==>
              forall name, url ::
                Stripped(Given(payload.scope.value.name, ""), name)
                && Stripped(Given(payload.scope.value.url, ""), url) ==>
                  ScopeFrom(payload.scope.value, name, url, n.scope.value)
  {
    var limit := VisibleLimit(payload.pagination);
    LimitIsVisible(payload.pagination);
    ShownItems(payload.items, limit);
    if payload.pagination.Some? {
      PaginationIsFrom(payload.pagination.value, n.version.value, LegacyTotal(payload), |n.items|);
    }
    if payload.scope.Some? {
      forall name, url | Stripped(Given(payload.scope.value.name, ""), name)
                         && Stripped(Given(payload.scope.value.url, ""), url)
        ensures ScopeFrom(payload.scope.value, name, url, n.scope.value)
      {
        ScopeIsFrom(payload.scope.value, name, url);
      }
    }
  }

  lemma ShownItems(raw: seq<Item>, limit: nat)
    ensures ItemsFrom(raw, limit, NormalItems(Take(raw, limit)))
  {
    forall i | 0 <= i < |Take(raw, limit)|
      ensures OptionsFrom(raw[i].details.variants, NormalItem(raw[i]).details.variants)
    {
      OptionsAreFrom(raw[i].details.variants);
    }
  }
}
