/** Folding later pages into earlier ones across the parts of a message, for any payloads, any test of
    continuation and any merge. */
module PageFolding {
  import opened Sums

  /** What continues a payload, how a continuation is merged into it, and how a merged payload renders. */
  datatype Rules<!P> = Rules(next: (P, P) -> bool, merge: (P, P) -> P, render: P -> string)

  /** A part's payload counts only in a part of kind `products`; its other content is carried in `body`. */
  datatype Part<P> = Part(kind: string, payload: Option<P>, html: string, body: string)

  function ProductOf<P>(part: Part<P>): Option<P> {
    if part.kind == "products" then part.payload else None
  }

  /** A part whose payload was merged keeps its place, its other content, and its markup when none is rendered. */
  function Refilled<P>(part: Part<P>, payload: P, rules: Rules<P>): Part<P> {
    var html := rules.render(payload);
    part.(payload := Some(payload), html := if html != "" then html else part.html)
  }

  // ---------------------------------------------------------------- the fold of the source

  datatype Folding<P> = Folding(merged: seq<Part<P>>, open: Option<nat>)

  function OpenPayload<P>(f: Folding<P>): Option<P> {
    if f.open.Some? && f.open.value < |f.merged| then f.merged[f.open.value].payload else None
  }

  function FoldPart<P>(f: Folding<P>, part: Part<P>, rules: Rules<P>): Folding<P> {
    var product, current := ProductOf(part), OpenPayload(f);
    if product.None? then
      f.(merged := f.merged + [part])
    else if current.Some? && rules.next(current.value, product.value) then
      var combined := rules.merge(current.value, product.value);
      f.(merged := f.merged[f.open.value := Refilled(f.merged[f.open.value], combined, rules)])
    else
      Folding(f.merged + [part], Some(|f.merged|))
  }

  function Fold<P>(parts: seq<Part<P>>, rules: Rules<P>): Folding<P>
    decreases |parts|
  {
    if |parts| == 0 then Folding([], None) else FoldPart(Fold(parts[..|parts| - 1], rules), parts[|parts| - 1], rules)
  }

  // ---------------------------------------------------------------- runs of pages

  /** The product payloads of a message, in order. */
  ghost function Payloads<P>(parts: seq<Part<P>>): seq<P> {
    if parts == [] then [] else
      var product := ProductOf(parts[|parts| - 1]);
      Payloads(parts[..|parts| - 1]) + if product.Some? then [product.value] else []
  }

  ghost function Plain<P>(parts: seq<Part<P>>): seq<Part<P>> {
    if parts == [] then [] else
      Plain(parts[..|parts| - 1]) + if ProductOf(parts[|parts| - 1]).None? then [parts[|parts| - 1]] else []
  }

  /** A first page and the pages that continue it. */
  datatype Pages<P> = Pages(first: P, later: seq<P>)

  ghost function FoldedPages<P>(pages: Pages<P>, rules: Rules<P>): P
    decreases |pages.later|
  {
    if pages.later == [] then pages.first
    else rules.merge(FoldedPages(Pages(pages.first, pages.later[..|pages.later| - 1]), rules),
        pages.later[|pages.later| - 1])
  }

  ghost predicate Continues<P>(runs: seq<Pages<P>>, next: P, rules: Rules<P>) {
    runs != [] && rules.next(FoldedPages(runs[|runs| - 1], rules), next)
  }

  ghost function Joined<P>(runs: seq<Pages<P>>, next: P): (joined: seq<Pages<P>>)
    requires runs != []
    ensures |joined| == |runs|
  {
    runs[..|runs| - 1] + [Pages(runs[|runs| - 1].first, runs[|runs| - 1].later + [next])]
  }

  /** The payloads cut into runs: a payload joins the last run exactly when it continues the fold of that run. */
  ghost function Runs<P>(payloads: seq<P>, rules: Rules<P>): seq<Pages<P>>
    decreases |payloads|
  {
    if payloads == [] then [] else
      var runs, next := Runs(payloads[..|payloads| - 1], rules), payloads[|payloads| - 1];
      if Continues(runs, next, rules) then Joined(runs, next) else runs + [Pages(next, [])]
  }

  /** The parts that keep a place of their own: plain parts, and product parts that continue nothing. */
  ghost function Openings<P>(parts: seq<Part<P>>, rules: Rules<P>): seq<Part<P>>
    decreases |parts|
  {
    if parts == [] then [] else
      var front, part := parts[..|parts| - 1], parts[|parts| - 1];
      Openings(front, rules)
        + if ProductOf(part).Some? && Continues(Runs(Payloads(front), rules), ProductOf(part).value, rules) then []
            else [part]
  }

  ghost function Folded<P>(runs: seq<Pages<P>>, rules: Rules<P>): (folded: seq<P>)
    ensures |folded| == |runs| && forall i :: 0 <= i < |runs| ==> folded[i] == FoldedPages(runs[i], rules)
  {
    seq(|runs|, i requires 0 <= i < |runs| => FoldedPages(runs[i], rules))
  }

  lemma PayloadsAppend<P>(parts: seq<Part<P>>, part: Part<P>)
    ensures Payloads(parts + [part]) == if ProductOf(part).Some? then Payloads(parts) + [ProductOf(part).value]
        else Payloads(parts)
    ensures Plain(parts + [part]) == if ProductOf(part).None? then Plain(parts) + [part] else Plain(parts)
  {
    assert (parts + [part])[..|parts|] == parts;
  }

  lemma OpeningsAppend<P>(parts: seq<Part<P>>, part: Part<P>, rules: Rules<P>)
    ensures Openings(parts + [part], rules)
         == if ProductOf(part).Some? && Continues(Runs(Payloads(parts), rules), ProductOf(part).value, rules)
            then Openings(parts, rules)
            else Openings(parts, rules) + [part]
  {
    assert (parts + [part])[..|parts|] == parts;
  }

  lemma RunsAppend<P>(payloads: seq<P>, next: P, rules: Rules<P>)
    ensures Runs(payloads + [next], rules)
         == if Continues(Runs(payloads, rules), next, rules) then Joined(Runs(payloads, rules), next)
            else Runs(payloads, rules) + [Pages(next, [])]
  {
    assert (payloads + [next])[..|payloads|] == payloads;
  }

  /** The last product part, and only plain parts after it. */
  ghost predicate LastProduct<P>(parts: seq<Part<P>>, k: nat) {
    k < |parts| && ProductOf(parts[k]).Some? && forall j :: k < j < |parts| ==> ProductOf(parts[j]).None?
  }

  lemma {:induction false} RefillLast<P>(parts: seq<Part<P>>, k: nat, payload: P, rules: Rules<P>)
    requires LastProduct(parts, k)
    ensures var parts' := parts[k := Refilled(parts[k], payload, rules)];
            && LastProduct(parts', k) && Plain(parts') == Plain(parts)
            && Payloads(parts) != [] && Payloads(parts') == Payloads(parts)[..|Payloads(parts)| - 1] + [payload]
    decreases |parts|
  {
    var parts' := parts[k := Refilled(parts[k], payload, rules)];
    var front := parts[..|parts| - 1];
    if k == |front| {
      assert parts'[..|front|] == front;
    } else {
      assert parts'[..|front|] == front[k := Refilled(front[k], payload, rules)];
      RefillLast(front, k, payload, rules);
    }
  }

  // ---------------------------------------------------------------- what the fold does

  /** A plain part is unchanged; a product part keeps its kind and body, and its markup is its own or its payload's. */
  ghost predicate InPlace<P>(part: Part<P>, part': Part<P>, rules: Rules<P>) {
    if ProductOf(part).None? || part' == part then
      part' == part
    else
      && ProductOf(part').Some? && part'.kind == part.kind && part'.body == part.body
      && (part'.html == rules.render(part'.payload.value) || rules.render(part'.payload.value) == "")
  }

  /** The parts in place, and the open part holding the fold of the last run. */
  ghost predicate FoldsTo<P>(openings: seq<Part<P>>, plain: seq<Part<P>>, runs: seq<Pages<P>>, f: Folding<P>,
                             rules: Rules<P>) {
    && |f.merged| == |openings| && (forall i :: 0 <= i < |openings| ==> InPlace(openings[i], f.merged[i], rules))
    && Plain(f.merged) == plain
    && Payloads(f.merged) == Folded(runs, rules)
    && (runs == [] ==> f.open == None)
    && (runs != [] ==> f.open.Some? && LastProduct(f.merged, f.open.value)
                       && ProductOf(f.merged[f.open.value]) == Some(FoldedPages(runs[|runs| - 1], rules)))
  }

  lemma PlainPartKeeps<P>(openings: seq<Part<P>>, plain: seq<Part<P>>, runs: seq<Pages<P>>, f: Folding<P>,
                          part: Part<P>, rules: Rules<P>)
    requires FoldsTo(openings, plain, runs, f, rules) && ProductOf(part).None?
    ensures FoldsTo(openings + [part], plain + [part], runs, FoldPart(f, part, rules), rules)
  {
    PayloadsAppend(f.merged, part);
  }

  lemma OneMoreInPlace<P>(openings: seq<Part<P>>, merged: seq<Part<P>>, part: Part<P>, rules: Rules<P>)
    requires |merged| == |openings| && forall i :: 0 <= i < |openings| ==> InPlace(openings[i], merged[i], rules)
    ensures forall i :: 0 <= i <= |openings| ==> InPlace((openings + [part])[i], (merged + [part])[i], rules)
  {
  }

  lemma FoldedNew<P>(runs: seq<Pages<P>>, next: P, rules: Rules<P>)
    ensures Folded(runs + [Pages(next, [])], rules) == Folded(runs, rules) + [next]
  {
  }

  lemma FirstPageKeeps<P>(openings: seq<Part<P>>, plain: seq<Part<P>>, runs: seq<Pages<P>>, f: Folding<P>,
                          part: Part<P>, rules: Rules<P>)
    requires FoldsTo(openings, plain, runs, f, rules) && ProductOf(part).Some?
    requires !Continues(runs, ProductOf(part).value, rules)
    ensures FoldsTo(openings + [part], plain, runs + [Pages(ProductOf(part).value, [])], FoldPart(f, part, rules),
        rules)
  {
    PayloadsAppend(f.merged, part);
    OneMoreInPlace(openings, f.merged, part, rules);
    FoldedNew(runs, ProductOf(part).value, rules);
  }

  lemma FoldedJoined<P>(runs: seq<Pages<P>>, next: P, rules: Rules<P>)
    requires runs != []
    ensures var merged := rules.merge(FoldedPages(runs[|runs| - 1], rules), next);
            && FoldedPages(Joined(runs, next)[|runs| - 1], rules) == merged
            && Folded(Joined(runs, next), rules) == Folded(runs, rules)[..|runs| - 1] + [merged]
  {
    var later := runs[|runs| - 1].later;
    assert (later + [next])[..|later|] == later;
  }

  lemma RefilledInPlace<P>(openings: seq<Part<P>>, merged: seq<Part<P>>, k: nat, payload: P, rules: Rules<P>)
    requires LastProduct(merged, k) && |merged| == |openings|
    requires forall i :: 0 <= i < |openings| ==> InPlace(openings[i], merged[i], rules)
    ensures var refilled := merged[k := Refilled(merged[k], payload, rules)];
            forall i :: 0 <= i < |openings| ==> InPlace(openings[i], refilled[i], rules)
  {
  }

  lemma NextPageKeeps<P>(openings: seq<Part<P>>, plain: seq<Part<P>>, runs: seq<Pages<P>>, f: Folding<P>,
                         part: Part<P>, rules: Rules<P>)
    requires FoldsTo(openings, plain, runs, f, rules) && ProductOf(part).Some?
    requires Continues(runs, ProductOf(part).value, rules)
    ensures FoldsTo(openings, plain, Joined(runs, ProductOf(part).value), FoldPart(f, part, rules), rules)
  {
    var k, next := f.open.value, ProductOf(part).value;
    var combined := rules.merge(FoldedPages(runs[|runs| - 1], rules), next);
    RefillLast(f.merged, k, combined, rules);
    RefilledInPlace(openings, f.merged, k, combined, rules);
    FoldedJoined(runs, next, rules);
    assert FoldPart(f, part, rules) == f.(merged := f.merged[k := Refilled(f.merged[k], combined, rules)]);
  }

  ghost predicate Described<P>(parts: seq<Part<P>>, rules: Rules<P>) {
    FoldsTo(Openings(parts, rules), Plain(parts), Runs(Payloads(parts), rules), Fold(parts, rules), rules)
  }

  lemma FoldAppend<P>(front: seq<Part<P>>, part: Part<P>, rules: Rules<P>)
    ensures Fold(front + [part], rules) == FoldPart(Fold(front, rules), part, rules)
  {
    assert (front + [part])[..|front|] == front;
  }

  /** Two parts, with only plain ones between them. */
  lemma FoldTwo<P>(p: Part<P>, between: seq<Part<P>>, q: Part<P>, rules: Rules<P>)
    requires |between| <= 1 && (between != [] ==> ProductOf(between[0]).None?)
    requires ProductOf(p).Some? && ProductOf(q).Some?
    ensures var a, b := p.payload.value, q.payload.value;
            Fold([p] + between + [q], rules).merged
            == if rules.next(a, b) then [Refilled(p, rules.merge(a, b), rules)] + between else [p] + between + [q]
  {
    FoldAppend([], p, rules);
    assert [] + [p] == [p];
    assert Fold([p], rules) == Folding([p], Some(0));
    if between != [] {
      FoldAppend([p], between[0], rules);
      assert [p] + [between[0]] == [p] + between;
    } else {
      assert [p] + between == [p];
    }
    FoldAppend([p] + between, q, rules);
  }

  lemma PartKeeps<P>(front: seq<Part<P>>, part: Part<P>, rules: Rules<P>)
    requires Described(front, rules)
    ensures Described(front + [part], rules)
  {
    var openings, plain, runs, f := Openings(front, rules), Plain(front), Runs(Payloads(front), rules),
        Fold(front, rules);
    PayloadsAppend(front, part);
    OpeningsAppend(front, part, rules);
    FoldAppend(front, part, rules);
    if ProductOf(part).None? {
      PlainPartKeeps(openings, plain, runs, f, part, rules);
    } else {
      RunsAppend(Payloads(front), ProductOf(part).value, rules);
      if Continues(runs, ProductOf(part).value, rules) {
        NextPageKeeps(openings, plain, runs, f, part, rules);
      } else {
        FirstPageKeeps(openings, plain, runs, f, part, rules);
      }
    }
  }

  lemma LastPartKeeps<P>(parts: seq<Part<P>>, rules: Rules<P>)
    requires parts != [] && Described(parts[..|parts| - 1], rules)
    ensures Described(parts, rules)
  {
    var front, part := parts[..|parts| - 1], parts[|parts| - 1];
    assert parts == front + [part];
    PartKeeps(front, part, rules);
  }

  lemma NothingFolded<P>(rules: Rules<P>)
    ensures Described([], rules)
  {
    assert Folded([], rules) == [];
  }

  lemma {:induction false} FoldIsDescribed<P>(parts: seq<Part<P>>, rules: Rules<P>)
    ensures Described(parts, rules)
    decreases |parts|
  {
    if parts == [] {
      NothingFolded(rules);
    } else {
      FoldIsDescribed(parts[..|parts| - 1], rules);
      LastPartKeeps(parts, rules);
    }
  }

  // ---------------------------------------------------------------- the runs are the greedy ones

  ghost function Concat<P>(runs: seq<Pages<P>>): seq<P> {
    if runs == [] then [] else Concat(runs[..|runs| - 1]) + [runs[|runs| - 1].first] + runs[|runs| - 1].later
  }

  ghost predicate EachContinues<P>(pages: Pages<P>, rules: Rules<P>) {
    forall j :: 0 <= j < |pages.later| ==> rules.next(FoldedPages(Pages(pages.first, pages.later[..j]), rules),
        pages.later[j])
  }

  lemma EachContinuesJoined<P>(pages: Pages<P>, next: P, rules: Rules<P>)
    requires EachContinues(pages, rules) && rules.next(FoldedPages(pages, rules), next)
    ensures EachContinues(Pages(pages.first, pages.later + [next]), rules)
  {
    var later := pages.later + [next];
    assert pages.later[..|pages.later|] == pages.later;
    forall j | 0 <= j < |later| ensures rules.next(FoldedPages(Pages(pages.first, later[..j]), rules), later[j]) {
      assert later[..j] == pages.later[..j];
    }
  }

  /** No run's first payload continues the run before it. */
  ghost predicate NoneJoins<P>(runs: seq<Pages<P>>, rules: Rules<P>) {
    forall i :: 1 <= i < |runs| ==> !rules.next(FoldedPages(runs[i - 1], rules), runs[i].first)
  }

  ghost predicate Maximal<P>(payloads: seq<P>, runs: seq<Pages<P>>, rules: Rules<P>) {
    Concat(runs) == payloads && NoneJoins(runs, rules) && forall i :: 0 <= i < |runs| ==> EachContinues(runs[i], rules)
  }

  lemma JoinKeepsMaximal<P>(payloads: seq<P>, runs: seq<Pages<P>>, next: P, rules: Rules<P>)
    requires Maximal(payloads, runs, rules) && Continues(runs, next, rules)
    ensures Maximal(payloads + [next], Joined(runs, next), rules)
  {
    var last := runs[|runs| - 1];
    assert Joined(runs, next)[..|runs| - 1] == runs[..|runs| - 1];
    EachContinuesJoined(last, next, rules);
    assert Concat(runs[..|runs| - 1]) + [last.first] + (last.later + [next]) == Concat(runs) + [next];
  }

  lemma NewRunKeepsMaximal<P>(payloads: seq<P>, runs: seq<Pages<P>>, next: P, rules: Rules<P>)
    requires Maximal(payloads, runs, rules) && !Continues(runs, next, rules)
    ensures Maximal(payloads + [next], runs + [Pages(next, [])], rules)
  {
    assert (runs + [Pages(next, [])])[..|runs|] == runs;
  }

  lemma NextKeepsMaximal<P>(front: seq<P>, next: P, rules: Rules<P>)
    requires Maximal(front, Runs(front, rules), rules)
    ensures Maximal(front + [next], Runs(front + [next], rules), rules)
  {
    RunsAppend(front, next, rules);
    if Continues(Runs(front, rules), next, rules) {
      JoinKeepsMaximal(front, Runs(front, rules), next, rules);
    } else {
      NewRunKeepsMaximal(front, Runs(front, rules), next, rules);
    }
  }

  lemma SplitAtLast<P>(payloads: seq<P>)
    requires payloads != []
    ensures payloads == payloads[..|payloads| - 1] + [payloads[|payloads| - 1]]
  {
  }

  lemma NothingIsMaximal<P>(rules: Rules<P>)
    ensures Maximal([], Runs([], rules), rules)
  {
  }

  lemma {:induction false} RunsAreMaximal<P>(payloads: seq<P>, rules: Rules<P>)
    ensures Maximal(payloads, Runs(payloads, rules), rules)
    decreases |payloads|
  {
    if payloads != [] {
      SplitAtLast(payloads);
      RunsAreMaximal(payloads[..|payloads| - 1], rules);
      NextKeepsMaximal(payloads[..|payloads| - 1], payloads[|payloads| - 1], rules);
    } else {
      NothingIsMaximal(rules);
    }
  }
}
