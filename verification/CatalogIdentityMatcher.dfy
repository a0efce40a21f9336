/** Scoring a product identity against catalogue names, over words already normalised to ASCII. */
module CatalogIdentityMatcher {
  import opened Sums
  import opened EditDistance

  type Token = string

  const MINIMUM_LENGTH := 3
  const DISTINCTIVE_LENGTH := 8
  const LENGTH_GAP := 2

  /** `max(1, ceil(longest * 0.2))` */
  function Tolerance(longest: nat): nat {
    if (longest + 4) / 5 < 1 then 1 else (longest + 4) / 5
  }

  /** `max(1, floor(longest * 0.18))` */
  function CloseTolerance(longest: nat): nat {
    if longest * 18 / 100 < 1 then 1 else longest * 18 / 100
  }

  /** Within the tolerance, and, when `pruned`, not skipped by the length test before it. */
  predicate Within(a: Token, b: Token, pruned: bool) {
    (pruned ==> Gap(a, b) <= LENGTH_GAP) && Lev(a, b) <= Tolerance(Longest(a, b))
  }

  predicate Close(a: Token, b: Token, pruned: bool) {
    (pruned ==> Gap(a, b) <= LENGTH_GAP) && Lev(a, b) <= CloseTolerance(Longest(a, b))
  }

  function AtLeast(tokens: seq<Token>, length: nat): (kept: seq<Token>)
    ensures forall token :: token in kept <==> token in tokens && |token| >= length
  {
    if tokens == [] then [] else (if |tokens[0]| >= length then [tokens[0]] else []) + AtLeast(tokens[1..], length)
  }

  // ---------------------------------------------------------------- the identity score

  datatype Match = Match(index: nat, distance: nat)

  /** The first of the nearest candidate tokens within tolerance. */
  function Best(token: Token, candidate: seq<Token>, pruned: bool): Option<Match> {
    if candidate == [] then None else
      var k := |candidate| - 1;
      var earlier, distance := Best(token, candidate[..k], pruned), Lev(token, candidate[k]);
      var nearer := Within(token, candidate[k], pruned) && (earlier.None? || distance < earlier.value.distance);
      if nearer then Some(Match(k, distance)) else earlier
  }

  datatype Tally = Tally(indexes: set<nat>, distance: nat)

  function Tallied(query: seq<Token>, candidate: seq<Token>, pruned: bool): Option<Tally> {
    if query == [] then Some(Tally({}, 0)) else
      var earlier := Tallied(query[..|query| - 1], candidate, pruned);
      var best := Best(query[|query| - 1], candidate, pruned);
      if earlier.None? || best.None? then None
      else Some(Tally(earlier.value.indexes + {best.value.index}, earlier.value.distance + best.value.distance))
  }

  /** Both sides have words, and the query is not one short word. */
  predicate Specific(query: seq<Token>, candidate: seq<Token>) {
    query != [] && candidate != [] && !(|query| == 1 && |query[0]| < DISTINCTIVE_LENGTH)
  }

  /** Three for each candidate token left over, and the edits of the matched ones. */
  function Scored(candidate: seq<Token>, tally: Option<Tally>): Option<int> {
    if tally.None? then None else Some((|candidate| - |tally.value.indexes|) * 3 + tally.value.distance)
  }

  function Score(query: seq<Token>, candidate: seq<Token>, pruned: bool): Option<int> {
    if !Specific(query, candidate) then None else Scored(candidate, Tallied(query, candidate, pruned))
  }

  method IdentityDistance(query: seq<Token>, candidate: seq<Token>) returns (score: Option<int>)
    ensures score == Score(AtLeast(query, MINIMUM_LENGTH), AtLeast(candidate, MINIMUM_LENGTH), true)
  {
    var queryTokens, candidateTokens := AtLeast(query, MINIMUM_LENGTH), AtLeast(candidate, MINIMUM_LENGTH);
    var specific := IsSpecific(queryTokens, candidateTokens);
    if !specific {
      return None;
    }
    var tally := TallyAll(queryTokens, candidateTokens);
    score := Scored(candidateTokens, tally);
  }

  /** The guards: words on both sides, and more than one short word to look for. */
  method IsSpecific(query: seq<Token>, candidate: seq<Token>) returns (specific: bool)
    ensures specific == Specific(query, candidate)
  {
    if query == [] || candidate == [] {
      return false;
    }
    specific := !(|query| == 1 && |query[0]| < DISTINCTIVE_LENGTH);
  }

  /** The loop over the query's tokens, left as soon as one has no match. */
  method TallyAll(query: seq<Token>, candidate: seq<Token>) returns (tally: Option<Tally>)
    ensures tally == Tallied(query, candidate, true)
  {
    var matched: set<nat>, editDistance: nat := {}, 0;
    for k := 0 to |query|
      invariant Tallied(query[..k], candidate, true) == Some(Tally(matched, editDistance))
    {
      var best := FindBest(query[k], candidate);
      assert query[..k + 1][..k] == query[..k];
      if best.None? {
        NoTally(query, candidate, k + 1);
        return None;
      }
      matched, editDistance := matched + {best.value.index}, editDistance + best.value.distance;
    }
    assert query[..|query|] == query;
    tally := Some(Tally(matched, editDistance));
  }

  method FindBest(token: Token, candidate: seq<Token>) returns (best: Option<Match>)
    ensures best == Best(token, candidate, true)
  {
    best := None;
    for k := 0 to |candidate|
      invariant best == Best(token, candidate[..k], true)
    {
      assert candidate[..k + 1][..k] == candidate[..k];
      if Gap(token, candidate[k]) > LENGTH_GAP {
        continue;
      }
      var distance := Lev(token, candidate[k]);
      if distance <= Tolerance(Longest(token, candidate[k])) && (best.None? || distance < best.value.distance) {
        best := Some(Match(k, distance));
      }
    }
    assert candidate[..|candidate|] == candidate;
  }

  lemma {:induction false} NoTally(query: seq<Token>, candidate: seq<Token>, k: nat)
    requires k <= |query| && Tallied(query[..k], candidate, true).None?
    ensures Tallied(query, candidate, true).None?
    decreases |query| - k
  {
    if k == |query| {
      assert query[..k] == query;
    } else {
      assert query[..k + 1][..k] == query[..k];
      NoTally(query, candidate, k + 1);
    }
  }

  /** None when no candidate is within tolerance, or the first of the nearest. */
  ghost predicate FirstNearest(token: Token, candidate: seq<Token>, best: Option<Match>, pruned: bool) {
    match best
    case None => forall j :: 0 <= j < |candidate| ==> !Within(token, candidate[j], pruned)
    case Some(m) =>
      && m.index < |candidate| && Within(token, candidate[m.index], pruned) && m.distance == Lev(token,
          candidate[m.index])
      && (forall j :: 0 <= j < |candidate| && Within(token, candidate[j], pruned) ==>
            m.distance <= Lev(token, candidate[j]))
      && (forall j :: 0 <= j < m.index && Within(token, candidate[j], pruned) ==> m.distance < Lev(token, candidate[j]))
  }

  lemma NextNearest(token: Token, front: seq<Token>, last: Token, earlier: Option<Match>, pruned: bool)
    requires FirstNearest(token, front, earlier, pruned)
    ensures FirstNearest(token, front + [last],
                         if Within(token, last, pruned) && (earlier.None? || Lev(token, last) < earlier.value.distance)
                         then Some(Match(|front|, Lev(token, last))) else earlier, pruned)
  {
  }

  lemma {:induction false} BestIsFirstNearest(token: Token, candidate: seq<Token>, pruned: bool)
    ensures FirstNearest(token, candidate, Best(token, candidate, pruned), pruned)
  {
    if candidate != [] {
      var front := candidate[..|candidate| - 1];
      BestIsFirstNearest(token, front, pruned);
      NextNearest(token, front, candidate[|candidate| - 1], Best(token, front, pruned), pruned);
      assert front + [candidate[|candidate| - 1]] == candidate;
    }
  }

  // ---------------------------------------------------------------- when the score is zero

  ghost predicate NoRepeats(tokens: seq<Token>) {
    forall i, j :: 0 <= i < j < |tokens| ==> tokens[i] != tokens[j]
  }

  ghost predicate SameTokens(a: seq<Token>, b: seq<Token>) {
    forall token :: token in a <==> token in b
  }

  lemma {:induction false} ExactMatch(token: Token, candidate: seq<Token>, i: nat, pruned: bool)
    requires i < |candidate| && candidate[i] == token && forall j :: 0 <= j < i ==> candidate[j] != token
    ensures Best(token, candidate, pruned) == Some(Match(i, 0))
  {
    BestIsFirstNearest(token, candidate, pruned);
    LevOfSelf(token);
    var best := Best(token, candidate, pruned);
    LevZero(token, candidate[best.value.index]);
  }

  /** Where the matched indexes of a tally come from. */
  ghost predicate MatchedBy(query: seq<Token>, candidate: seq<Token>, pruned: bool, i: nat, k: nat) {
    k < |query| && Best(query[k], candidate, pruned).Some? && Best(query[k], candidate, pruned).value.index == i
  }

  /** Every matched index is the best of some token, and every token's best is matched and paid for. */
  ghost predicate Accounts(query: seq<Token>, candidate: seq<Token>, pruned: bool, tally: Tally) {
    && (forall i :: i in tally.indexes ==> i < |candidate| && exists k :: MatchedBy(query, candidate, pruned, i, k))
    && (forall k :: 0 <= k < |query| ==> PaidFor(Best(query[k], candidate, pruned), tally))
  }

  predicate PaidFor(best: Option<Match>, tally: Tally) {
    best.Some? && best.value.index in tally.indexes && best.value.distance <= tally.distance
  }

  lemma NextAccounted(front: seq<Token>, token: Token, candidate: seq<Token>, pruned: bool, earlier: Tally, best: Match)
    requires Accounts(front, candidate, pruned, earlier) && Best(token, candidate, pruned) == Some(best)
    requires best.index < |candidate|
    ensures Accounts(front + [token], candidate, pruned,
        Tally(earlier.indexes + {best.index}, earlier.distance + best.distance))
  {
    var query, tally := front + [token], Tally(earlier.indexes + {best.index}, earlier.distance + best.distance);
    forall i | i in tally.indexes ensures i < |candidate| && exists k :: MatchedBy(query, candidate, pruned, i, k) {
      if i in earlier.indexes {
        var k :| MatchedBy(front, candidate, pruned, i, k);
        assert MatchedBy(query, candidate, pruned, i, k);
      } else {
        assert MatchedBy(query, candidate, pruned, i, |front|);
      }
    }
    forall k | 0 <= k < |query| ensures PaidFor(Best(query[k], candidate, pruned), tally) {
      if k < |front| {
        assert PaidFor(Best(front[k], candidate, pruned), earlier);
      }
    }
  }

  lemma {:induction false} TallyOrigin(query: seq<Token>, candidate: seq<Token>, pruned: bool)
    requires Tallied(query, candidate, pruned).Some?
    ensures Accounts(query, candidate, pruned, Tallied(query, candidate, pruned).value)
  {
    if query != [] {
      var front, token := query[..|query| - 1], query[|query| - 1];
      TallyOrigin(front, candidate, pruned);
      BestIsFirstNearest(token, candidate, pruned);
      NextAccounted(front, token, candidate, pruned, Tallied(front, candidate, pruned).value,
          Best(token, candidate, pruned).value);
      assert front + [token] == query;
    }
  }

  lemma {:induction false} IndexesFit(indexes: set<nat>, n: nat)
    requires forall i :: i in indexes ==> i < n
    ensures |indexes| <= n && (|indexes| == n ==> forall i: nat :: i < n ==> i in indexes)
  {
    if n > 0 {
      IndexesFit(indexes - {n - 1}, n - 1);
    } else {
      assert indexes == {};
    }
  }

  lemma {:induction false} FullIndexes(indexes: set<nat>, n: nat)
    requires forall i: nat :: i in indexes <==> i < n
    ensures |indexes| == n
  {
    if n > 0 {
      FullIndexes(indexes - {n - 1}, n - 1);
    } else {
      assert indexes == {};
    }
  }

  lemma {:induction false} TallyOfExact(query: seq<Token>, candidate: seq<Token>, pruned: bool)
    requires NoRepeats(candidate) && forall token :: token in query ==> token in candidate
    ensures Tallied(query, candidate, pruned).Some? && Tallied(query, candidate, pruned).value.distance == 0
  {
    if query != [] {
      var token := query[|query| - 1];
      assert token in query && forall other :: other in query[..|query| - 1] ==> other in query;
      TallyOfExact(query[..|query| - 1], candidate, pruned);
      var i :| 0 <= i < |candidate| && candidate[i] == token;
      ExactMatch(token, candidate, i, pruned);
    }
  }

  /** Equal word sets, once each, score zero. */
  lemma ExactScoresZero(query: seq<Token>, candidate: seq<Token>, pruned: bool)
    requires Specific(query, candidate) && SameTokens(query, candidate) && NoRepeats(candidate)
    ensures Score(query, candidate, pruned) == Some(0)
  {
    TallyOfExact(query, candidate, pruned);
    TallyOrigin(query, candidate, pruned);
    var tally := Tallied(query, candidate, pruned).value;
    forall i: nat | i < |candidate| ensures i in tally.indexes {
      assert candidate[i] in candidate;
      var k :| 0 <= k < |query| && query[k] == candidate[i];
      ExactMatch(query[k], candidate, i, pruned);
    }
    FullIndexes(tally.indexes, |candidate|);
  }

  lemma {:induction false} FirstOccurrence(token: Token, tokens: seq<Token>) returns (i: nat)
    requires token in tokens
    ensures i < |tokens| && tokens[i] == token && forall j :: 0 <= j < i ==> tokens[j] != token
  {
    if token in tokens[..|tokens| - 1] {
      i := FirstOccurrence(token, tokens[..|tokens| - 1]);
    } else {
      i := |tokens| - 1;
      assert forall j :: 0 <= j < i ==> tokens[j] in tokens[..|tokens| - 1];
    }
  }

  lemma FreeMatchIsExact(token: Token, candidate: seq<Token>, pruned: bool)
    requires Best(token, candidate, pruned).Some? && Best(token, candidate, pruned).value.distance == 0
    ensures var i := Best(token, candidate, pruned).value.index;
            i < |candidate| && candidate[i] == token && forall j :: 0 <= j < i ==> candidate[j] != token
  {
    var i := Best(token, candidate, pruned).value.index;
    BestIsFirstNearest(token, candidate, pruned);
    LevZero(token, candidate[i]);
    var first := FirstOccurrence(token, candidate);
    ExactMatch(token, candidate, first, pruned);
  }

  lemma ZeroScoreIsFull(query: seq<Token>, candidate: seq<Token>, pruned: bool)
    requires Score(query, candidate, pruned) == Some(0)
    ensures var tally := Tallied(query, candidate, pruned);
            tally.Some? && tally.value.distance == 0 && forall i: nat :: i < |candidate| ==> i in tally.value.indexes
  {
    TallyOrigin(query, candidate, pruned);
    IndexesFit(Tallied(query, candidate, pruned).value.indexes, |candidate|);
  }

  /** A zero score leaves no candidate word unmatched, unequal or repeated. */
  lemma ZeroScoreIsExact(query: seq<Token>, candidate: seq<Token>, pruned: bool)
    requires Score(query, candidate, pruned) == Some(0)
    ensures SameTokens(query, candidate) && NoRepeats(candidate)
  {
    var tally := Tallied(query, candidate, pruned).value;
    ZeroScoreIsFull(query, candidate, pruned);
    TallyOrigin(query, candidate, pruned);
    forall k | 0 <= k < |query| ensures query[k] in candidate {
      assert PaidFor(Best(query[k], candidate, pruned), tally);
      FreeMatchIsExact(query[k], candidate, pruned);
    }
    forall i: nat | i < |candidate|
      ensures candidate[i] in query && forall j :: 0 <= j < i ==> candidate[j] != candidate[i]
    {
      assert i in tally.indexes;
      var k: nat :| MatchedBy(query, candidate, pruned, i, k);
      assert PaidFor(Best(query[k], candidate, pruned), tally);
      FreeMatchIsExact(query[k], candidate, pruned);
    }
  }

  /** Past its guards, the identity score is zero exactly when the two word sets are equal and the candidate repeats
      no word. */
  lemma ScoreZero(query: seq<Token>, candidate: seq<Token>)
    ensures Score(query, candidate, true) == Some(0)
      <==> Specific(query, candidate) && SameTokens(query, candidate) && NoRepeats(candidate)
  {
    if Score(query, candidate, true) == Some(0) {
      ZeroScoreIsExact(query, candidate, true);
    } else if Specific(query, candidate) && SameTokens(query, candidate) && NoRepeats(candidate) {
      ExactScoresZero(query, candidate, true);
    }
  }

  /** The score is withheld exactly for unspecific identities and for a query word that no candidate word is near. */
  lemma ScoreWithheld(query: seq<Token>, candidate: seq<Token>, pruned: bool)
    ensures Score(query, candidate, pruned).None?
      <==> !Specific(query, candidate) || exists k :: 0 <= k < |query| && NoneNear(query[k], candidate, pruned)
  {
    TalliedUnless(query, candidate, pruned);
  }

  ghost predicate NoneNear(token: Token, candidate: seq<Token>, pruned: bool) {
    forall j :: 0 <= j < |candidate| ==> !Within(token, candidate[j], pruned)
  }

  lemma {:induction false} TalliedUnless(query: seq<Token>, candidate: seq<Token>, pruned: bool)
    ensures Tallied(query, candidate, pruned).None?
      <==> exists k :: 0 <= k < |query| && NoneNear(query[k], candidate, pruned)
  {
    if query != [] {
      var front := query[..|query| - 1];
      TalliedUnless(front, candidate, pruned);
      BestIsFirstNearest(query[|query| - 1], candidate, pruned);
      assert forall k :: 0 <= k < |front| ==> front[k] == query[k];
    }
  }

  // ---------------------------------------------------------------- the embedded score

  /** The candidate has words, no more than the query, and is not one short word. */
  predicate Embeddable(query: seq<Token>, candidate: seq<Token>) {
    && query != [] && candidate != [] && |candidate| <= |query|
    && !(|candidate| == 1 && |candidate[0]| < DISTINCTIVE_LENGTH)
  }

  /** The first `n` candidate words are near the query's words from `start`. */
  ghost predicate Fits(query: seq<Token>, candidate: seq<Token>, start: nat, n: nat, pruned: bool)
    requires n <= |candidate| && start + n <= |query|
  {
    forall o :: 0 <= o < n ==> Within(query[start + o], candidate[o], pruned)
  }

  function Cost(query: seq<Token>, candidate: seq<Token>, start: nat, n: nat): nat
    requires n <= |candidate| && start + n <= |query|
  {
    if n == 0 then 0 else Cost(query, candidate, start, n - 1) + Lev(query[start + n - 1], candidate[n - 1])
  }

  /** The least summed distance over the windows up to `stop` that fit word for word, and none when no window fits. */
  ghost predicate LeastWindow(query: seq<Token>, candidate: seq<Token>, stop: nat, best: Option<nat>, pruned: bool)
    requires stop == 0 || stop - 1 + |candidate| <= |query|
  {
    && (best.None? ==> forall start: nat :: start < stop ==> !Fits(query, candidate, start, |candidate|, pruned))
    && (best.Some? ==> exists start: nat :: start < stop && Fits(query, candidate, start, |candidate|, pruned)
                                            && Cost(query, candidate, start, |candidate|) == best.value)
    && (best.Some? ==> forall start: nat :: start < stop && Fits(query, candidate, start, |candidate|, pruned) ==>
                         best.value <= Cost(query, candidate, start, |candidate|))
  }

  ghost predicate IsEmbeddedScore(query: seq<Token>, candidate: seq<Token>, best: Option<nat>, pruned: bool) {
    if Embeddable(query, candidate) then LeastWindow(query, candidate, |query| - |candidate| + 1, best, pruned)
        else best == None
  }

  /** One window: its summed distance when every word fits. */
  method WindowDistance(query: seq<Token>, candidate: seq<Token>, start: nat) returns (distance: Option<nat>)
    requires start + |candidate| <= |query|
    ensures distance.Some? <==> Fits(query, candidate, start, |candidate|, true)
    ensures distance.Some? ==> distance.value == Cost(query, candidate, start, |candidate|)
  {
    var total := 0;
    for offset := 0 to |candidate|
      invariant Fits(query, candidate, start, offset, true)
      invariant total == Cost(query, candidate, start, offset)
    {
      var queryToken, candidateToken := query[start + offset], candidate[offset];
      if Gap(queryToken, candidateToken) > LENGTH_GAP {
        assert !Within(query[start + offset], candidate[offset], true);
        return None;
      }
      var tokenDistance := Lev(queryToken, candidateToken);
      if tokenDistance > Tolerance(Longest(queryToken, candidateToken)) {
        assert !Within(query[start + offset], candidate[offset], true);
        return None;
      }
      total := total + tokenDistance;
    }
    distance := Some(total);
  }

  method EmbeddedIdentityDistance(query: seq<Token>, candidate: seq<Token>) returns (best: Option<nat>)
    ensures IsEmbeddedScore(AtLeast(query, MINIMUM_LENGTH), AtLeast(candidate, MINIMUM_LENGTH), best, true)
  {
    var queryTokens, candidateTokens := AtLeast(query, MINIMUM_LENGTH), AtLeast(candidate, MINIMUM_LENGTH);
    var embeddable := IsEmbeddable(queryTokens, candidateTokens);
    if !embeddable {
      return None;
    }
    best := BestWindow(queryTokens, candidateTokens);
  }

  /** The guards: words on both sides, no more in the candidate, and not one short word. */
  method IsEmbeddable(query: seq<Token>, candidate: seq<Token>) returns (embeddable: bool)
    ensures embeddable == Embeddable(query, candidate)
  {
    if query == [] || candidate == [] || |candidate| > |query| {
      return false;
    }
    embeddable := !(|candidate| == 1 && |candidate[0]| < DISTINCTIVE_LENGTH);
  }

  /** The loop over the windows of the query. */
  method BestWindow(query: seq<Token>, candidate: seq<Token>) returns (best: Option<nat>)
    requires |candidate| <= |query|
    ensures LeastWindow(query, candidate, |query| - |candidate| + 1, best, true)
  {
    best := None;
    for start := 0 to |query| - |candidate| + 1
      invariant LeastWindow(query, candidate, start, best, true)
    {
      var distance := WindowDistance(query, candidate, start);
      if distance.Some? && (best.None? || distance.value < best.value) {
        best := distance;
      }
    }
  }

  lemma {:induction false} CostZero(query: seq<Token>, candidate: seq<Token>, start: nat, n: nat)
    requires n <= |candidate| && start + n <= |query|
    ensures Cost(query, candidate, start, n) == 0 <==> forall o :: 0 <= o < n ==> query[start + o] == candidate[o]
  {
    if n > 0 {
      CostZero(query, candidate, start, n - 1);
      LevZero(query[start + n - 1], candidate[n - 1]);
    }
  }

  /** The candidate's words are a contiguous block of the query's. */
  ghost predicate Block(query: seq<Token>, candidate: seq<Token>, start: nat) {
    start + |candidate| <= |query| && query[start..start + |candidate|] == candidate
  }

  lemma BlockIsFree(query: seq<Token>, candidate: seq<Token>, start: nat, pruned: bool)
    requires start + |candidate| <= |query|
    ensures Block(query, candidate, start)
      <==> Fits(query, candidate, start, |candidate|, pruned) && Cost(query, candidate, start, |candidate|) == 0
  {
    CostZero(query, candidate, start, |candidate|);
    forall o | 0 <= o < |candidate| && query[start + o] == candidate[o]
      ensures Within(query[start + o], candidate[o], pruned)
    {
      LevOfSelf(candidate[o]);
    }
    if Block(query, candidate, start) {
      forall o | 0 <= o < |candidate| ensures query[start + o] == candidate[o] {
        assert query[start + o] == query[start..start + |candidate|][o];
      }
    }
  }

  /** Past its guards, the embedded score is zero exactly when the candidate is a contiguous block of the query. */
  lemma EmbeddedZero(query: seq<Token>, candidate: seq<Token>, best: Option<nat>)
    requires IsEmbeddedScore(query, candidate, best, true)
    ensures best == Some(0) <==> Embeddable(query, candidate) && exists start: nat :: Block(query, candidate, start)
  {
    forall start: nat | start + |candidate| <= |query|
      ensures Block(query, candidate, start)
        <==> Fits(query, candidate, start, |candidate|, true) && Cost(query, candidate, start, |candidate|) == 0
    {
      BlockIsFree(query, candidate, start, true);
    }
  }

  // ---------------------------------------------------------------- the length test before the edit distance

  function Repeated(n: nat): (word: string)
    ensures |word| == n
  {
    seq(n, _ => 'a')
  }

  lemma PruningHarmless(a: Token, b: Token)
    ensures Longest(a, b) <= 10 ==> Within(a, b, true) == Within(a, b, false)
    ensures Longest(a, b) <= 16 ==> Close(a, b, true) == Close(a, b, false)
  {
    LevAtLeastGap(a, b);
  }

  /** Three letters more than the length test allows, and still within tolerance. */
  lemma PruningMatters(longest: nat) returns (a: Token, b: Token)
    requires longest >= 11
    ensures Longest(a, b) == longest && Within(a, b, false) && !Within(a, b, true)
    ensures longest >= 17 ==> Close(a, b, false) && !Close(a, b, true)
  {
    a := Repeated(longest - 3);
    b := a + Repeated(3);
    LevOfExtension(a, Repeated(3));
  }

  /** Skipping words by their lengths changes nothing for words of up to ten letters, and for no greater length. */
  lemma PruningBound(longest: nat)
    ensures (forall a: Token, b: Token :: Longest(a, b) <= longest ==> Within(a, b, true) == Within(a, b, false))
      <==> longest <= 10
  {
    if longest <= 10 {
      forall a: Token, b: Token | Longest(a, b) <= longest ensures Within(a, b, true) == Within(a, b, false) {
        PruningHarmless(a, b);
      }
    } else {
      var a, b := PruningMatters(longest);
    }
  }

  /** The close match skips by length too: harmless up to sixteen letters, and for no greater length. */
  lemma ClosePruningBound(longest: nat)
    ensures (forall a: Token, b: Token :: Longest(a, b) <= longest ==> Close(a, b, true) == Close(a, b, false))
      <==> longest <= 16
  {
    if longest <= 16 {
      forall a: Token, b: Token | Longest(a, b) <= longest ensures Close(a, b, true) == Close(a, b, false) {
        PruningHarmless(a, b);
      }
    } else {
      var a, b := PruningMatters(longest);
    }
  }

  ghost predicate Short(tokens: seq<Token>) {
    forall i :: 0 <= i < |tokens| ==> |tokens[i]| <= 10
  }

  lemma {:induction false} BestUnpruned(token: Token, candidate: seq<Token>)
    requires |token| <= 10 && Short(candidate)
    ensures Best(token, candidate, true) == Best(token, candidate, false)
  {
    if candidate != [] {
      BestUnpruned(token, candidate[..|candidate| - 1]);
      PruningHarmless(token, candidate[|candidate| - 1]);
    }
  }

  lemma {:induction false} TalliedUnpruned(query: seq<Token>, candidate: seq<Token>)
    requires Short(query) && Short(candidate)
    ensures Tallied(query, candidate, true) == Tallied(query, candidate, false)
  {
    if query != [] {
      TalliedUnpruned(query[..|query| - 1], candidate);
      BestUnpruned(query[|query| - 1], candidate);
    }
  }

  /** Without the length test both scores come out the same for words of up to ten letters. */
  lemma ScoresUnpruned(query: seq<Token>, candidate: seq<Token>, best: Option<nat>)
    requires Short(query) && Short(candidate)
    ensures Score(query, candidate, true) == Score(query, candidate, false)
    ensures IsEmbeddedScore(query, candidate, best, true) <==> IsEmbeddedScore(query, candidate, best, false)
  {
    TalliedUnpruned(query, candidate);
    forall start: nat | start + |candidate| <= |query|
      ensures Fits(query, candidate, start, |candidate|, true) <==> Fits(query, candidate, start, |candidate|, false)
    {
      forall o | 0 <= o < |candidate|
        ensures Within(query[start + o], candidate[o], true) == Within(query[start + o], candidate[o], false)
      {
        PruningHarmless(query[start + o], candidate[o]);
      }
    }
  }

  // ---------------------------------------------------------------- the close match

  const CLOSE_LENGTH := 5

  method IsCloseMatch(query: seq<Token>, candidate: seq<Token>) returns (close: bool)
    ensures close <==> exists q, c :: q in query && |q| >= 5 && c in candidate && Close(q, c, true)
  {
    var queryTokens := AtLeast(query, CLOSE_LENGTH);
    if queryTokens == [] || candidate == [] {
      return false;
    }
    for i := 0 to |queryTokens|
      invariant forall k, j :: 0 <= k < i && 0 <= j < |candidate| ==> !Close(queryTokens[k], candidate[j], true)
    {
      for j := 0 to |candidate|
        invariant forall k :: 0 <= k < j ==> !Close(queryTokens[i], candidate[k], true)
      {
        var longest := Longest(queryTokens[i], candidate[j]);
        if longest < CLOSE_LENGTH || Gap(queryTokens[i], candidate[j]) > LENGTH_GAP {
          assert queryTokens[i] in queryTokens;
          continue;
        }
        var distance := Lev(queryTokens[i], candidate[j]);
        if distance <= CloseTolerance(longest) {
          assert queryTokens[i] in queryTokens && candidate[j] in candidate && Close(queryTokens[i], candidate[j],
              true);
          return true;
        }
      }
    }
    close := false;
    forall q, c | q in query && |q| >= CLOSE_LENGTH && c in candidate ensures !Close(q, c, true) {
      assert q in queryTokens;
      var k :| 0 <= k < |queryTokens| && queryTokens[k] == q;
      var j :| 0 <= j < |candidate| && candidate[j] == c;
    }
  }
}
