/** Folding the pages of one result set together across the parts of a message. */
module ProductParts {
  import opened Sums
  import opened FirstOccurrences
  import opened ProductPages
  import opened PageFolding

  /** A later page of the same category, or of the same non-empty query. */
  predicate IsNextProductPage(existing: Payload, incoming: Payload) {
    var category := if existing.scope.Some? then Or(existing.scope.value.categoryId, 0) else 0;
    var incomingCategory := if incoming.scope.Some? then Or(incoming.scope.value.categoryId, 0) else 0;
    var query := Lower(Trim(existing.query));
    && Max(1, PageOf(incoming)) > Max(1, PageOf(existing))
    && ((category > 0 && category == incomingCategory) || (query != "" && query == Lower(Trim(incoming.query))))
  }

  function Render(payload: Payload, renderer: seq<int> -> string): string {
    if UniqueIds(payload.ids) == [] then "" else renderer(UniqueIds(payload.ids))
  }

  function ProductRules(renderer: seq<int> -> string): Rules<Payload> {
    Rules(IsNextProductPage, Merge, payload => Render(payload, renderer))
  }

  /** One part of the loop below. */
  method PlacePart(merged: seq<Part<Payload>>, open: Option<nat>, part: Part<Payload>, renderer: seq<int> -> string)
    returns (merged': seq<Part<Payload>>, open': Option<nat>)
    requires open.Some? ==> open.value < |merged|
    ensures Folding(merged', open') == FoldPart(Folding(merged, open), part, ProductRules(renderer))
    ensures open'.Some? ==> open'.value < |merged'|
  {
    merged', open' := merged, open;
    var payload := ProductOf(part);
    if payload.None? {
      return merged' + [part], open';
    }
    var current := if open.Some? then merged[open.value].payload else None;
    if current.Some? && IsNextProductPage(current.value, payload.value) {
      var combined := MergeProductPayloadPages(current.value, payload.value);
      var html := Render(combined, renderer);
      merged' := merged'[open.value := merged'[open.value].(payload := Some(combined))];
      if html != "" {
        merged' := merged'[open.value := merged'[open.value].(html := html)];
      }
      return;
    }
    merged' := merged' + [part];
    open' := Some(|merged'| - 1);
  }

  method MergeSequentialProductParts(parts: seq<Part<Payload>>,
                                     renderer: seq<int> -> string) returns (merged: seq<Part<Payload>>)
    ensures merged == Fold(parts, ProductRules(renderer)).merged
  {
    merged := [];
    var open: Option<nat> := None;
    for k := 0 to |parts|
      invariant Folding(merged, open) == Fold(parts[..k], ProductRules(renderer))
      invariant open.Some? ==> open.value < |merged|
    {
      assert parts[..k + 1][..k] == parts[..k];
      merged, open := PlacePart(merged, open, parts[k], renderer);
    }
    assert parts[..|parts|] == parts;
  }

  /** The output has the opening parts in their order, plain ones unchanged; its product payloads are the left folds
      of the page merge over the runs of the input's. */
  lemma PartsFold(parts: seq<Part<Payload>>, renderer: seq<int> -> string)
    ensures var rules := ProductRules(renderer);
            var merged := Fold(parts, rules).merged;
            && Plain(merged) == Plain(parts)
            && Payloads(merged) == Folded(Runs(Payloads(parts), rules), rules)
            && |merged| == |Openings(parts, rules)|
            && (forall i :: 0 <= i < |merged| ==> InPlace(Openings(parts, rules)[i], merged[i], rules))
  {
    FoldIsDescribed(parts, ProductRules(renderer));
  }

  // ---------------------------------------------------------------- what continues what

  /** The page a payload says it is, the first when it says nothing usable. */
  function PageNumber(payload: Payload): int {
    match payload.pagination
    case Some(Pagination(_, Some(page), _, _, _, _, _, _)) => if page > 1 then page else 1
    case _ => 1
  }

  predicate SameCategory(a: Payload, b: Payload) {
    match (a.scope, b.scope)
    case (Some(Scope(Some(x), _, _, _, _)), Some(Scope(Some(y), _, _, _, _))) => x == y && x > 0
    case _ => false
  }

  /** Both queries have words, and the same up to case and the blanks around them. */
  ghost predicate SameQuery(a: string, b: string) {
    exists s, t :: Stripped(a, s) && Stripped(b, t) && s != "" && SameLetters(s, t)
  }

  /** A later page of the same category or the same query. */
  ghost predicate Follows(a: Payload, b: Payload) {
    PageNumber(b) > PageNumber(a) && (SameCategory(a, b) || SameQuery(a.query, b.query))
  }

  lemma LowerTrimIsSameQuery(a: string, b: string)
    ensures Lower(Trim(a)) != "" && Lower(Trim(a)) == Lower(Trim(b)) <==> SameQuery(a, b)
  {
    TrimStrips(a);
    TrimStrips(b);
    LowerIsSameLetters(Trim(a), Trim(b));
    forall s, t | Stripped(a, s) && Stripped(b, t) ensures s == Trim(a) && t == Trim(b) {
      StrippedOnce(a, s, Trim(a));
      StrippedOnce(b, t, Trim(b));
    }
  }

  /** What the fold asks of an adjacent page is that it follows. */
  lemma NextPagesFollow(a: Payload, b: Payload)
    ensures IsNextProductPage(a, b) <==> Follows(a, b)
  {
    LowerTrimIsSameQuery(a.query, b.query);
  }

  /** Two product parts, with nothing or one plain part between them, become one part that holds their merge when the
      second follows the first, and stay as they are otherwise. The merged part keeps its place and its content, and its
      markup unless the merge has ids that render to some. */
  lemma TwoPartsFold(p: Part<Payload>, between: seq<Part<Payload>>, q: Part<Payload>, renderer: seq<int> -> string)
    requires p.kind == "products" && p.payload.Some? && q.kind == "products" && q.payload.Some?
    requires |between| <= 1 && (between != [] ==> between[0].kind != "products" || between[0].payload.None?)
    ensures var a, b := p.payload.value, q.payload.value;
            var html := if Merge(a, b).ids == [] then "" else renderer(Merge(a, b).ids);
            Fold([p] + between + [q], ProductRules(renderer)).merged
            == if Follows(a, b)
               then [p.(payload := Some(Merge(a, b)), html := if html == "" then p.html else html)] + between
               else [p] + between + [q]
  {
    var a, b := p.payload.value, q.payload.value;
    NextPagesFollow(a, b);
    FoldTwo(p, between, q, ProductRules(renderer));
    MergedIdsAreUnique(a, b);
  }

  lemma MergedIdsAreUnique(a: Payload, b: Payload)
    ensures UniqueIds(Merge(a, b).ids) == Merge(a, b).ids
  {
    MergedIdsArePositive(a, b);
    forall id | id in Merge(a, b).ids ensures id != 0 {
      assert id in NamedIds(a) || id in NamedIds(b);
    }
    NonzeroIsWhole(Merge(a, b).ids);
    assert [] + Merge(a, b).ids == Merge(a, b).ids;
    GatherDistinct([], Merge(a, b).ids, Self);
  }

  ghost predicate Names(payloads: seq<Payload>, id: int) {
    exists i :: 0 <= i < |payloads| && id in NamedIds(payloads[i])
  }

  lemma NamesAppend(xs: seq<Payload>, ys: seq<Payload>, id: int)
    ensures Names(xs + ys, id) <==> Names(xs, id) || Names(ys, id)
  {
    forall i | 0 <= i < |xs| && id in NamedIds(xs[i]) ensures Names(xs + ys, id) {
      assert (xs + ys)[i] == xs[i];
    }
    forall i | 0 <= i < |ys| && id in NamedIds(ys[i]) ensures Names(xs + ys, id) {
      assert (xs + ys)[|xs| + i] == ys[i];
    }
  }

  lemma NamesOne(payload: Payload, id: int)
    ensures Names([payload], id) <==> id in NamedIds(payload)
  {
    assert [payload][0] == payload;
  }

  /** The merge of two pages names what they name, for every merge that rules allow. */
  ghost predicate KeepsNames(rules: Rules<Payload>) {
    forall a, b, id :: id in NamedIds(rules.merge(a, b)) <==> id in NamedIds(a) || id in NamedIds(b)
  }

  lemma {:induction false} FoldedPagesName(pages: Pages<Payload>, rules: Rules<Payload>, id: int)
    requires KeepsNames(rules)
    ensures id in NamedIds(FoldedPages(pages, rules)) <==> id in NamedIds(pages.first) || Names(pages.later, id)
    decreases |pages.later|
  {
    if pages.later != [] {
      var front, last := pages.later[..|pages.later| - 1], pages.later[|pages.later| - 1];
      FoldedPagesName(Pages(pages.first, front), rules, id);
      NamesAppend(front, [last], id);
      NamesOne(last, id);
      assert front + [last] == pages.later;
    }
  }

  lemma OneMoreRunNames(front: seq<Pages<Payload>>, last: Pages<Payload>, rules: Rules<Payload>, id: int)
    requires KeepsNames(rules)
    ensures Names(Folded(front + [last], rules), id)
      <==> Names(Folded(front, rules), id) || id in NamedIds(last.first) || Names(last.later, id)
  {
    FoldedPagesName(last, rules, id);
    NamesAppend(Folded(front, rules), [FoldedPages(last, rules)], id);
    NamesOne(FoldedPages(last, rules), id);
    assert Folded(front + [last], rules) == Folded(front, rules) + [FoldedPages(last, rules)];
  }

  lemma {:induction false} RunsNameTheSame(runs: seq<Pages<Payload>>, rules: Rules<Payload>, id: int)
    requires KeepsNames(rules)
    ensures Names(Folded(runs, rules), id) <==> Names(Concat(runs), id)
  {
    if runs != [] {
      var front, last := runs[..|runs| - 1], runs[|runs| - 1];
      RunsNameTheSame(front, rules, id);
      NamesAppend(Concat(front) + [last.first], last.later, id);
      NamesAppend(Concat(front), [last.first], id);
      NamesOne(last.first, id);
      OneMoreRunNames(front, last, rules, id);
      assert front + [last] == runs;
    }
  }

  /** The fold neither loses a product of the message nor gains one. */
  lemma FoldNamesTheSame(parts: seq<Part<Payload>>, renderer: seq<int> -> string, id: int)
    ensures Names(Payloads(Fold(parts, ProductRules(renderer)).merged), id) <==> Names(Payloads(parts), id)
  {
    var rules := ProductRules(renderer);
    forall a, b, id ensures id in NamedIds(rules.merge(a, b)) <==> id in NamedIds(a) || id in NamedIds(b) {
      MergeNamesBoth(a, b, id);
    }
    PartsFold(parts, renderer);
    RunsAreMaximal(Payloads(parts), rules);
    RunsNameTheSame(Runs(Payloads(parts), rules), rules, id);
  }

  /** Every later page of a run follows the fold of the pages before it. */
  ghost predicate EachFollows(pages: Pages<Payload>, rules: Rules<Payload>) {
    forall j :: 0 <= j < |pages.later| ==>
      Follows(FoldedPages(Pages(pages.first, pages.later[..j]), rules), pages.later[j])
  }

  /** The first page of a run does not follow the run before it. */
  ghost predicate NoneFollows(runs: seq<Pages<Payload>>, rules: Rules<Payload>) {
    forall i :: 1 <= i < |runs| ==> !Follows(FoldedPages(runs[i - 1], rules), runs[i].first)
  }

  /** The runs are contiguous and maximal: together they are the message's product payloads in order, every later page
      of a run follows the fold before it, and the first page of a run does not follow the run before. */
  lemma RunsOfParts(parts: seq<Part<Payload>>, renderer: seq<int> -> string)
    ensures var rules := ProductRules(renderer);
            var runs := Runs(Payloads(parts), rules);
            && Concat(runs) == Payloads(parts) && NoneFollows(runs, rules)
            && (forall i :: 0 <= i < |runs| ==> EachFollows(runs[i], rules))
  {
    var rules := ProductRules(renderer);
    RunsAreMaximal(Payloads(parts), rules);
    forall a, b ensures rules.next(a, b) <==> Follows(a, b) {
      NextPagesFollow(a, b);
    }
    forall i | 0 <= i < |Runs(Payloads(parts), rules)| ensures EachFollows(Runs(Payloads(parts), rules)[i], rules) {
      assert EachContinues(Runs(Payloads(parts), rules)[i], rules);
    }
  }
}
