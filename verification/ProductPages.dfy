/** Product payloads, and the merge that folds one page of results into another.

    A payload's fields are optional where the source supplies a default for a missing one; a field that is
    present but null reads as missing. An item's content beyond its id is carried whole. */
module ProductPages {
  import opened Sums
  import opened FirstOccurrences

  datatype Variant = Variant(code: string, caption: string, values: seq<string>)

  datatype Details = Details(sku: string, name: string, price: string, url: string, inStock: string,
                             productType: string, requiresVariant: bool, variants: seq<Variant>)

  datatype Item = Item(id: int, details: Details)

  datatype Pagination = Pagination(total: Option<int>, page: Option<int>, pageSize: Option<int>, returned: Option<int>,
                                   hasMore: Option<bool>, nextPage: Option<int>, cardLimit: Option<int>,
                                   truncated: Option<bool>)

  datatype Scope = Scope(categoryId: Option<int>, name: Option<string>, url: Option<string>,
                         includesDescendants: Option<bool>, directAddOnly: Option<bool>)

  datatype Payload = Payload(version: Option<int>, query: string, ids: seq<int>, items: seq<Item>, total: Option<int>,
                             pagination: Option<Pagination>, scope: Option<Scope>)

  const NO_FIELDS := Pagination(None, None, None, None, None, None, None, None)

  // ---------------------------------------------------------------- small parts

  function Or<T>(value: Option<T>, other: T): T {
    if value.Some? then value.value else other
  }

  /** The later of two optional fields, as `array_replace` keeps it. */
  function Later<T>(first: Option<T>, second: Option<T>): Option<T> {
    if second.Some? then second else first
  }

  function Max(x: int, y: int): int {
    if x >= y then x else y
  }

  predicate Blank(c: char) {
    c in {' ', '\t', '\n', '\r', '\0'} || c as int == 11
  }

  function TrimStart(s: string): (t: string)
    ensures t == [] || !Blank(t[0])
    ensures s == [] || !Blank(s[0]) ==> t == s
  {
    if s != [] && Blank(s[0]) then TrimStart(s[1..]) else s
  }

  function TrimEnd(s: string): (t: string)
    ensures t == [] || !Blank(t[|t| - 1])
    ensures t <= s
    ensures s == [] || !Blank(s[|s| - 1]) ==> t == s
  {
    if s != [] && Blank(s[|s| - 1]) then TrimEnd(s[..|s| - 1]) else s
  }

  /** PHP's `trim`: it leaves nothing more to trim. */
  function Trim(s: string): (t: string)
    ensures (t == [] || (!Blank(t[0]) && !Blank(t[|t| - 1])))
    ensures s == [] || (!Blank(s[0]) && !Blank(s[|s| - 1])) ==> t == s
  {
    TrimEnd(TrimStart(s))
  }

  /** Space, tab, line feed, carriage return, NUL and vertical tab. */
  ghost predicate AllBlank(s: string) {
    forall i :: 0 <= i < |s| ==> s[i] in " \t\n\r\0" || s[i] as int == 0x0B
  }

  /** A text without the blanks around it. */
  ghost predicate Stripped(s: string, t: string) {
    && (exists lead, tail :: AllBlank(lead) && AllBlank(tail) && s == lead + t + tail)
    && (t != "" ==> !AllBlank(t[..1]) && !AllBlank(t[|t| - 1..]))
  }

  lemma {:induction false} TrimStartStrips(s: string) returns (lead: string)
    ensures AllBlank(lead) && s == lead + TrimStart(s)
  {
    if s != [] && Blank(s[0]) {
      lead := TrimStartStrips(s[1..]);
      lead := [s[0]] + lead;
      assert s == [s[0]] + s[1..];
    } else {
      lead := "";
    }
  }

  lemma {:induction false} TrimEndStrips(s: string) returns (tail: string)
    ensures AllBlank(tail) && s == TrimEnd(s) + tail
  {
    if s != [] && Blank(s[|s| - 1]) {
      tail := TrimEndStrips(s[..|s| - 1]);
      tail := tail + [s[|s| - 1]];
      assert s == s[..|s| - 1] + [s[|s| - 1]];
    } else {
      tail := "";
    }
  }

  lemma TrimStrips(s: string)
    ensures Stripped(s, Trim(s))
  {
    var lead := TrimStartStrips(s);
    var tail := TrimEndStrips(TrimStart(s));
    var t := Trim(s);
    assert s == lead + t + tail;
    if t != "" {
      assert t[..1][0] == t[0] && t[|t| - 1..][0] == t[|t| - 1];
    }
  }

  /** There is one way to strip a text. */
  lemma StrippedOnce(s: string, t: string, u: string)
    requires Stripped(s, t) && Stripped(s, u)
    ensures t == u
  {
    var lead, tail :| AllBlank(lead) && AllBlank(tail) && s == lead + t + tail;
    var lead', tail' :| AllBlank(lead') && AllBlank(tail') && s == lead' + u + tail';
    if t != "" {
      TextIsInside(lead', u, tail', lead, t, tail);
    }
    if u != "" {
      TextIsInside(lead, t, tail, lead', u, tail');
    }
    if t != "" && u != "" {
      assert t == s[|lead|..|s| - |tail|] && u == s[|lead'|..|s| - |tail'|];
    }
  }

  /** The first and the last character of a stripped text lie inside any other text stripped from the same. */
  lemma TextIsInside(lead: string, t: string, tail: string, lead': string, u: string, tail': string)
    requires lead + t + tail == lead' + u + tail' && AllBlank(lead) && AllBlank(tail)
    requires u != "" && !AllBlank(u[..1]) && !AllBlank(u[|u| - 1..])
    ensures t != "" && |lead| <= |lead'| && |tail| <= |tail'|
  {
    var s, first, last := lead + t + tail, |lead'|, |lead'| + |u| - 1;
    assert s[first] == u[0] && u[..1] == [s[first]] && s[last] == u[|u| - 1] && u[|u| - 1..] == [s[last]];
  }

  /** What PHP's `?:` passes over. */
  predicate Falsy(s: string) {
    s == "" || s == "0"
  }

  function Lower(s: string): string {
    seq(|s|, i requires 0 <= i < |s| => if 'A' <= s[i] <= 'Z' then (s[i] as int + 32) as char else s[i])
  }

  /** The same letters, whatever their case. */
  ghost predicate SameLetters(s: string, t: string) {
    |s| == |t| && forall i :: 0 <= i < |s| ==> SameLetter(s[i], t[i])
  }

  predicate SameLetter(c: char, d: char) {
    || c == d
    || ('a' <= c <= 'z' && c as int - d as int == 'a' as int - 'A' as int)
    || ('a' <= d <= 'z' && d as int - c as int == 'a' as int - 'A' as int)
  }

  lemma LowerIsSameLetters(s: string, t: string)
    ensures Lower(s) == Lower(t) <==> SameLetters(s, t)
  {
    if Lower(s) == Lower(t) {
      forall i | 0 <= i < |s| ensures SameLetter(s[i], t[i]) {
        assert Lower(s)[i] == Lower(t)[i];
      }
    }
  }

  function Self(id: int): int { id }

  datatype ItemKey = ById(id: int) | ByContent(item: Item)

  function KeyOf(item: Item): ItemKey {
    if item.id > 0 then ById(item.id) else ByContent(item)
  }

  function Positive(ids: seq<int>): (positive: seq<int>)
    ensures forall id :: id in positive <==> id in ids && id > 0
  {
    if ids == [] then [] else (if ids[0] > 0 then [ids[0]] else []) + Positive(ids[1..])
  }

  function Nonzero(ids: seq<int>): (kept: seq<int>)
    ensures forall id :: id in kept <==> id in ids && id != 0
  {
    if ids == [] then [] else (if ids[0] != 0 then [ids[0]] else []) + Nonzero(ids[1..])
  }

  /** `array_unique` over `array_filter`. */
  function UniqueIds(ids: seq<int>): seq<int> {
    Gather([], Nonzero(ids), Self)
  }

  function ItemIds(items: seq<Item>): (ids: seq<int>)
    ensures |ids| == |items| && forall i :: 0 <= i < |ids| ==> ids[i] == items[i].id
  {
    seq(|items|, i requires 0 <= i < |items| => items[i].id)
  }

  /** The product ids that a payload names, in the order the merge meets them. */
  function NamedIds(payload: Payload): (ids: seq<int>)
    ensures forall id :: id in ids ==> id > 0
  {
    Positive(payload.ids) + Positive(ItemIds(payload.items))
  }

  // ---------------------------------------------------------------- the merge

  function PageOf(payload: Payload): int {
    if payload.pagination.Some? then Or(payload.pagination.value.page, 1) else 1
  }

  function PageTotal(payload: Payload): int {
    if payload.pagination.Some? then Or(payload.pagination.value.total, 0) else 0
  }

  function TotalOf(payload: Payload): int {
    Max(Or(payload.total, 0), PageTotal(payload))
  }

  function MergedQuery(first: string, second: string): string {
    if Falsy(Trim(second)) then first else Trim(second)
  }

  function MergedScope(first: Option<Scope>, second: Option<Scope>): Option<Scope> {
    if first.None? then second
    else if second.None? then first
    else
      var a, b := first.value, second.value;
      Some(Scope(Later(a.categoryId, b.categoryId), Later(a.name, b.name), Later(a.url, b.url),
                 Later(a.includesDescendants, b.includesDescendants), Later(a.directAddOnly, b.directAddOnly)))
  }

  function ReplacedFields(first: Option<Pagination>, second: Option<Pagination>): Option<Pagination> {
    if first.None? then second
    else if second.None? then first
    else
      var a, b := first.value, second.value;
      Some(Pagination(Later(a.total, b.total), Later(a.page, b.page),
                      Later(a.pageSize, b.pageSize), Later(a.returned, b.returned),
                      Later(a.hasMore, b.hasMore), Later(a.nextPage, b.nextPage), Later(a.cardLimit, b.cardLimit),
                      Later(a.truncated, b.truncated)))
  }

  /** A pagination with any field at all is recomputed from the merged items and total. */
  function MergedPagination(first: Option<Pagination>, second: Option<Pagination>, page: int, total: int,
      count: int): Option<Pagination> {
    var fields := ReplacedFields(first, second);
    if fields == None || fields == Some(NO_FIELDS) then
      fields
    else
      Some(fields.value.(page := Some(page), total := Some(total), returned := Some(count),
                         hasMore := Some(total > count),
                         nextPage := if total > count then Some(page + 1) else None))
  }

  function MergedIds(first: Payload, second: Payload): seq<int> {
    Gather([], NamedIds(first) + NamedIds(second), Self)
  }

  function MergedItems(first: Payload, second: Payload): seq<Item> {
    Gather([], first.items + second.items, KeyOf)
  }

  function Merge(first: Payload, second: Payload): Payload {
    var items := MergedItems(first, second);
    var total := Max(|items|, Max(TotalOf(first), TotalOf(second)));
    Payload(Later(first.version, second.version), MergedQuery(first.query, second.query), MergedIds(first, second),
        items, Some(total),
            MergedPagination(first.pagination, second.pagination, Max(PageOf(first), PageOf(second)), total, |items|),
            MergedScope(first.scope, second.scope))
  }

  // ---------------------------------------------------------------- the loop of the source

  /** The loop over one payload's ids. */
  method GatherIds(start: seq<int>, added: seq<int>) returns (ids: seq<int>)
    ensures ids == Gather(start, Positive(added), Self)
  {
    ids := start;
    for k := 0 to |added|
      invariant ids == Gather(start, Positive(added[..k]), Self)
    {
      var id := added[k];
      GatherNextPositive(start, added, k);
      if id > 0 && !Listed(ids, id, Self) {
        ids := ids + [id];
      }
    }
    assert added[..|added|] == added;
  }

  /** The loop over one payload's items, whose ids join the list too. */
  method GatherItems(startIds: seq<int>, startItems: seq<Item>, added: seq<Item>)
      returns (ids: seq<int>, items: seq<Item>)
    ensures ids == Gather(startIds, Positive(ItemIds(added)), Self)
    ensures items == Gather(startItems, added, KeyOf)
  {
    ids, items := startIds, startItems;
    var itemIds := ItemIds(added);
    for k := 0 to |added|
      invariant ids == Gather(startIds, Positive(itemIds[..k]), Self)
      invariant items == Gather(startItems, added[..k], KeyOf)
    {
      var item := added[k];
      GatherNextPositive(startIds, itemIds, k);
      GatherNext(startItems, added, k, KeyOf);
      if !Listed(items, item, KeyOf) {
        items := items + [item];
      }
      if item.id > 0 && !Listed(ids, item.id, Self) {
        ids := ids + [item.id];
      }
    }
    assert added[..|added|] == added && itemIds[..|added|] == itemIds;
  }

  /** One payload's ids and items, folded into what the earlier payload left. */
  method GatherPage(payload: Payload, startIds: seq<int>, startItems: seq<Item>)
      returns (ids: seq<int>, items: seq<Item>)
    ensures ids == Gather(startIds, NamedIds(payload), Self)
    ensures items == Gather(startItems, payload.items, KeyOf)
  {
    ids := GatherIds(startIds, payload.ids);
    ids, items := GatherItems(ids, startItems, payload.items);
    GatherAppend(startIds, Positive(payload.ids), Positive(ItemIds(payload.items)), Self);
  }

  lemma {:induction false} PositiveAppend(xs: seq<int>, ys: seq<int>)
    ensures Positive(xs + ys) == Positive(xs) + Positive(ys)
  {
    if xs == [] {
      assert xs + ys == ys;
    } else {
      assert (xs + ys)[1..] == xs[1..] + ys;
      PositiveAppend(xs[1..], ys);
    }
  }

  lemma PositiveNext(ids: seq<int>, k: nat)
    requires k < |ids|
    ensures Positive(ids[..k + 1]) == Positive(ids[..k]) + if ids[k] > 0 then [ids[k]] else []
  {
    assert ids[..k + 1] == ids[..k] + [ids[k]];
    PositiveAppend(ids[..k], [ids[k]]);
  }

  lemma GatherNextPositive(seen: seq<int>, ids: seq<int>, k: nat)
    requires k < |ids|
    ensures var gathered := Gather(seen, Positive(ids[..k]), Self);
            Gather(seen, Positive(ids[..k + 1]), Self)
            == if ids[k] > 0 && !Listed(gathered, ids[k], Self) then gathered + [ids[k]] else gathered
  {
    PositiveNext(ids, k);
    var gathered := Gather(seen, Positive(ids[..k]), Self);
    GatherAppend(seen, Positive(ids[..k]), if ids[k] > 0 then [ids[k]] else [], Self);
    if ids[k] > 0 {
      GatherOne(gathered, ids[k], Self);
    }
  }

  method MergePagination(existing: Option<Pagination>, incoming: Option<Pagination>, page: int, total: int, count: int)
    returns (pagination: Option<Pagination>)
    ensures pagination == MergedPagination(existing, incoming, page, total, count)
  {
    pagination := ReplacedFields(existing, incoming);
    if pagination.Some? && pagination.value != NO_FIELDS {
      var hasMore := total > count;
      var nextPage := if hasMore then Some(page + 1) else None;
      pagination := Some(pagination.value.(page := Some(page), total := Some(total), returned := Some(count),
                                           hasMore := Some(hasMore), nextPage := nextPage));
    }
  }

  method MergeProductPayloadPages(existing: Payload, incoming: Payload) returns (combined: Payload)
    ensures combined == Merge(existing, incoming)
  {
    var ids, items := GatherPage(existing, [], []);
    ids, items := GatherPage(incoming, ids, items);
    GatherAppend([], NamedIds(existing), NamedIds(incoming), Self);
    GatherAppend([], existing.items, incoming.items, KeyOf);
    var total := Max(|items|, Max(TotalOf(existing), TotalOf(incoming)));
    var query := Trim(incoming.query);
    if Falsy(query) {
      query := existing.query;
    }
    var pagination := MergePagination(existing.pagination, incoming.pagination,
        Max(PageOf(existing), PageOf(incoming)), total, |items|);
    combined := Payload(Later(existing.version, incoming.version), query, ids, items, Some(total), pagination,
                        MergedScope(existing.scope, incoming.scope));
  }

  // ---------------------------------------------------------------- associativity

  lemma {:induction false} PositiveIsWhole(ids: seq<int>)
    requires forall id :: id in ids ==> id > 0
    ensures Positive(ids) == ids
  {
    if ids != [] {
      assert ids[0] in ids && forall id :: id in ids[1..] ==> id in ids;
      PositiveIsWhole(ids[1..]);
    }
  }

  lemma {:induction false} NonzeroIsWhole(ids: seq<int>)
    requires forall id :: id in ids ==> id != 0
    ensures Nonzero(ids) == ids
  {
    if ids != [] {
      assert ids[0] in ids && forall id :: id in ids[1..] ==> id in ids;
      NonzeroIsWhole(ids[1..]);
    }
  }

  lemma MergedIdsArePositive(a: Payload, b: Payload)
    ensures Distinct(MergedIds(a, b), Self)
    ensures forall id :: id in MergedIds(a, b) <==> id in NamedIds(a) || id in NamedIds(b)
    ensures Positive(MergedIds(a, b)) == MergedIds(a, b)
  {
    var named := NamedIds(a) + NamedIds(b);
    GatherKeys([], named, Self);
    forall id | id in named ensures id in MergedIds(a, b) {
      var i :| 0 <= i < |MergedIds(a, b)| && Self(MergedIds(a, b)[i]) == Self(id);
    }
    forall id | id in MergedIds(a, b) ensures id > 0 {
      assert id in named;
    }
    PositiveIsWhole(MergedIds(a, b));
  }

  lemma ItemIsNamed(payload: Payload, item: Item)
    requires item in payload.items && item.id > 0
    ensures item.id in NamedIds(payload)
  {
    var j :| 0 <= j < |payload.items| && payload.items[j] == item;
    assert ItemIds(payload.items)[j] == item.id;
  }

  /** The items of a merged page add no id that the page does not already name. */
  lemma MergedItemsAreNamed(a: Payload, b: Payload, id: int)
    requires id in Positive(ItemIds(MergedItems(a, b)))
    ensures id in MergedIds(a, b)
  {
    var items := MergedItems(a, b);
    assert id in ItemIds(items);
    var i :| 0 <= i < |items| && items[i].id == id;
    GatherKeys([], a.items + b.items, KeyOf);
    MergedIdsArePositive(a, b);
    assert items[i] in items;
    if items[i] in a.items {
      ItemIsNamed(a, items[i]);
    } else {
      ItemIsNamed(b, items[i]);
    }
  }

  /** Gathering the ids that a merged page names is gathering those of its two pages. */
  lemma GatherMergedIds(seen: seq<int>, a: Payload, b: Payload)
    requires Distinct(seen, Self)
    ensures Gather(seen, NamedIds(Merge(a, b)), Self) == Gather(seen, NamedIds(a) + NamedIds(b), Self)
  {
    var ids, itemIds := MergedIds(a, b), Positive(ItemIds(MergedItems(a, b)));
    MergedIdsArePositive(a, b);
    GatherAppend(seen, ids, itemIds, Self);
    GatherGathered(seen, [], NamedIds(a) + NamedIds(b), Self);
    GatherKeys(seen, ids, Self);
    forall id | id in itemIds ensures Holds(Gather(seen, ids, Self), Self(id), Self) {
      MergedItemsAreNamed(a, b, id);
    }
    GatherAbsorbs(Gather(seen, ids, Self), itemIds, Self);
  }

  lemma IdsGroupLeft(a: Payload, b: Payload, c: Payload)
    ensures MergedIds(Merge(a, b), c) == Gather([], NamedIds(a) + NamedIds(b) + NamedIds(c), Self)
  {
    GatherAppend([], NamedIds(Merge(a, b)), NamedIds(c), Self);
    GatherMergedIds([], a, b);
    GatherAppend([], NamedIds(a) + NamedIds(b), NamedIds(c), Self);
  }

  lemma IdsGroupRight(a: Payload, b: Payload, c: Payload)
    ensures MergedIds(a, Merge(b, c)) == Gather([], NamedIds(a) + (NamedIds(b) + NamedIds(c)), Self)
  {
    GatherAppend([], NamedIds(a), NamedIds(Merge(b, c)), Self);
    GatherKeys([], NamedIds(a), Self);
    GatherMergedIds(Gather([], NamedIds(a), Self), b, c);
    GatherAppend([], NamedIds(a), NamedIds(b) + NamedIds(c), Self);
  }

  lemma IdsAssociate(a: Payload, b: Payload, c: Payload)
    ensures MergedIds(Merge(a, b), c) == MergedIds(a, Merge(b, c))
  {
    IdsGroupLeft(a, b, c);
    IdsGroupRight(a, b, c);
    ConcatAssociates(NamedIds(a), NamedIds(b), NamedIds(c));
  }

  lemma ItemsAssociate(a: seq<Item>, b: seq<Item>, c: seq<Item>)
    ensures Gather([], Gather([], a + b, KeyOf) + c, KeyOf) == Gather([], a + Gather([], b + c, KeyOf), KeyOf)
  {
    GatherGroupsLeft(a + b, c, KeyOf);
    GatherGroupsRight(a, b + c, KeyOf);
    ConcatAssociates(a, b, c);
  }

  lemma {:induction false} GatherLength<T, K>(seen: seq<T>, xs: seq<T>, ys: seq<T>, key: T -> K)
    ensures |Gather(seen, xs, key)| <= |Gather(seen, xs + ys, key)|
  {
    GatherAppend(seen, xs, ys, key);
    GatherExtends(Gather(seen, xs, key), ys, key);
  }

  /** Merging never loses an item of either page. */
  lemma MergedItemsGrow(a: seq<Item>, b: seq<Item>, c: seq<Item>)
    ensures |Gather([], a + b, KeyOf)| <= |Gather([], Gather([], a + b, KeyOf) + c, KeyOf)|
    ensures |Gather([], b + c, KeyOf)| <= |Gather([], a + Gather([], b + c, KeyOf), KeyOf)|
  {
    GatherGathered([], [], a + b, KeyOf);
    GatherLength([], Gather([], a + b, KeyOf), c, KeyOf);
    var bc := Gather([], b + c, KeyOf);
    GatherKeys([], b + c, KeyOf);
    GatherKeys([], a + bc, KeyOf);
    forall i | 0 <= i < |bc| ensures Holds(Gather([], a + bc, KeyOf), KeyOf(bc[i]), KeyOf) {
      assert bc[i] in a + bc;
    }
    KeysFit(bc, Gather([], a + bc, KeyOf));
  }

  lemma {:induction false} KeysFit(xs: seq<Item>, ys: seq<Item>)
    requires Distinct(xs, KeyOf) && forall i :: 0 <= i < |xs| ==> Holds(ys, KeyOf(xs[i]), KeyOf)
    ensures |xs| <= |ys|
  {
    KeysFitWithin(xs, set i | 0 <= i < |ys| :: KeyOf(ys[i]));
    KeysAtMost(ys);
  }

  lemma {:induction false} KeysFitWithin(xs: seq<Item>, keys: set<ItemKey>)
    requires Distinct(xs, KeyOf) && forall i :: 0 <= i < |xs| ==> KeyOf(xs[i]) in keys
    ensures |xs| <= |keys|
  {
    if xs != [] {
      KeysFitWithin(xs[1..], keys - {KeyOf(xs[0])});
    }
  }

  lemma {:induction false} KeysAtMost(ys: seq<Item>)
    ensures |set i | 0 <= i < |ys| :: KeyOf(ys[i])| <= |ys|
    decreases |ys|
  {
    if ys != [] {
      var front := ys[..|ys| - 1];
      KeysAtMost(front);
      var earlier := set i | 0 <= i < |front| :: KeyOf(front[i]);
      assert (set i | 0 <= i < |ys| :: KeyOf(ys[i])) == earlier + {KeyOf(ys[|ys| - 1])};
    }
  }

  lemma QueryAssociates(a: string, b: string, c: string)
    ensures MergedQuery(MergedQuery(a, b), c) == MergedQuery(a, MergedQuery(b, c))
  {
  }

  lemma PaginationAssociates(a: Option<Pagination>, b: Option<Pagination>, c: Option<Pagination>,
                             ab: (int, int, int), bc: (int, int, int), page: int, total: int, count: int)
    ensures MergedPagination(MergedPagination(a, b, ab.0, ab.1, ab.2), c, page, total, count)
         == MergedPagination(a, MergedPagination(b, c, bc.0, bc.1, bc.2), page, total, count)
  {
  }

  lemma ScopeAssociates(a: Option<Scope>, b: Option<Scope>, c: Option<Scope>)
    ensures MergedScope(MergedScope(a, b), c) == MergedScope(a, MergedScope(b, c))
  {
  }

  function MergedTotal(a: Payload, b: Payload): int {
    Max(|MergedItems(a, b)|, Max(TotalOf(a), TotalOf(b)))
  }

  lemma MergedTotalAndPage(a: Payload, b: Payload)
    ensures TotalOf(Merge(a, b)) == MergedTotal(a, b)
    ensures PageOf(Merge(a, b)) == Max(PageOf(a), PageOf(b))
  {
  }

  lemma TotalAssociates(a: Payload, b: Payload, c: Payload)
    ensures MergedItems(Merge(a, b), c) == MergedItems(a, Merge(b, c))
    ensures MergedTotal(Merge(a, b), c) == MergedTotal(a, Merge(b, c))
  {
    ItemsAssociate(a.items, b.items, c.items);
    MergedItemsGrow(a.items, b.items, c.items);
    MergedTotalAndPage(a, b);
    MergedTotalAndPage(b, c);
  }

  /** Three pages merge to the same payload in either grouping: the same ids in the same order, the same item for
      every key, the same totals, page, counts, next page, query and scope. */
  lemma MergeIsAssociative(a: Payload, b: Payload, c: Payload)
    ensures Merge(Merge(a, b), c) == Merge(a, Merge(b, c))
  {
    IdsAssociate(a, b, c);
    TotalAssociates(a, b, c);
    QueryAssociates(a.query, b.query, c.query);
    ScopeAssociates(a.scope, b.scope, c.scope);
    MergedTotalAndPage(a, b);
    MergedTotalAndPage(b, c);
    PaginationAssociates(a.pagination, b.pagination, c.pagination,
                         (Max(PageOf(a), PageOf(b)), MergedTotal(a, b), |MergedItems(a, b)|),
                         (Max(PageOf(b), PageOf(c)), MergedTotal(b, c), |MergedItems(b, c)|),
                         Max(PageOf(a), Max(PageOf(b), PageOf(c))), MergedTotal(a, Merge(b, c)),
                             |MergedItems(a, Merge(b, c))|);
  }

  /** For every item key the merged page keeps the item met first, the earlier page's before the later's. */
  lemma MergeKeepsFirstItems(a: Payload, b: Payload, item: Item)
    ensures item in Merge(a, b).items
      <==> exists i: nat :: FirstOfKey(a.items + b.items, i, KeyOf) && (a.items + b.items)[i] == item
  {
    GatherKeepsFirsts(a.items + b.items, item, KeyOf);
  }

  /** The merged counts agree with each other: the total covers the items and both claimed totals, there is a next
      page, one further on, exactly when the total exceeds the items, and the page is the later of the two. */
  lemma MergedCounts(a: Payload, b: Payload)
    requires Merge(a, b).pagination.Some? && Merge(a, b).pagination.value != NO_FIELDS
    ensures var merged, p := Merge(a, b), Merge(a, b).pagination.value;
            && p.total == merged.total && merged.total.value >= |merged.items| && p.returned == Some(|merged.items|)
            && merged.total.value >= TotalOf(a) && merged.total.value >= TotalOf(b)
            && (p.hasMore == Some(true) <==> merged.total.value > |merged.items|)
            && p.nextPage == (if p.hasMore == Some(true) then Some(Max(PageOf(a), PageOf(b)) + 1) else None)
            && p.page == Some(Max(PageOf(a), PageOf(b)))
  {
  }

  /** The merged page names exactly the products of its two pages, each once. */
  lemma MergeNamesBoth(a: Payload, b: Payload, id: int)
    ensures id in NamedIds(Merge(a, b)) <==> id in NamedIds(a) || id in NamedIds(b)
    ensures Distinct(Merge(a, b).ids, Self) && Distinct(Merge(a, b).items, KeyOf)
  {
    MergedIdsArePositive(a, b);
    if id in Positive(ItemIds(MergedItems(a, b))) {
      MergedItemsAreNamed(a, b, id);
    }
    GatherKeys([], a.items + b.items, KeyOf);
  }
}
