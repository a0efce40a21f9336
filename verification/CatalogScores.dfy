/** What the identity scores count: three for every candidate word that no query word matches, and one for every edit
    of the words that match. */
module CatalogScores {
  import opened Sums
  import opened EditDistance
  import opened CatalogIdentityMatcher

  // ---------------------------------------------------------------- the tolerances and the guards

  /** Words match whose lengths differ by at most two and that are one edit apart, or as many edits more as the longer
      has fives of letters. */
  lemma WithinMeans(a: Token, b: Token)
    ensures Within(a, b, true) <==>
            && (|a| <= |b| + 2 && |b| <= |a| + 2)
            && (Lev(a, b) <= 1 || 5 * (Lev(a, b) - 1) < (if |a| >= |b| then |a| else |b|))
  {
  }

  /** The close match allows one edit, or eighteen for every hundred letters of the longer word. */
  lemma CloseMeans(a: Token, b: Token)
    ensures Close(a, b, true) <==>
            && (|a| <= |b| + 2 && |b| <= |a| + 2)
            && (Lev(a, b) <= 1 || 100 * Lev(a, b) <= 18 * (if |a| >= |b| then |a| else |b|))
  {
  }

  /** Words of one or two letters take no part, and the others keep their order. */
  lemma {:induction false} ShortWordsTakeNoPart(words: seq<Token>, word: Token)
    ensures AtLeast(words + [word], MINIMUM_LENGTH)
         == AtLeast(words, MINIMUM_LENGTH) + if |word| >= 3 then [word] else []
  {
    if words == [] {
      assert [word][1..] == [];
    } else {
      assert (words + [word])[1..] == words[1..] + [word];
      ShortWordsTakeNoPart(words[1..], word);
    }
  }

  /** One word alone identifies a product only from eight letters on, on the side that has to be found. */
  lemma OneShortWordIsNotEnough(word: Token, words: seq<Token>, best: Option<nat>)
    requires words != []
    ensures |word| < 8 ==> Score([word], words, true) == None
    ensures |word| < 8 ==> (IsEmbeddedScore(words, [word], best, true) <==> best == None)
    ensures |word| >= 8 ==> (Score([word], words, true) == None <==> NoneNear(word, words, true))
    ensures |word| >= 8 && word in words ==> (IsEmbeddedScore(words, [word], best, true) <==> best == Some(0))
  {
    TalliedUnless([word], words, true);
    if |word| >= 8 && word in words {
      var start := FirstOccurrence(word, words);
      assert words[start..start + 1] == [word];
      BlockIsFree(words, [word], start, true);
      assert Fits(words, [word], start, 1, true) && Cost(words, [word], start, 1) == 0;
    }
  }

  /** A candidate with more words than the query is not embedded in it. */
  lemma LongerIsNotEmbedded(query: seq<Token>, candidate: seq<Token>, best: Option<nat>)
    requires |candidate| > |query|
    ensures IsEmbeddedScore(query, candidate, best, true) <==> best == None
  {
  }

  // ---------------------------------------------------------------- the embedded score

  /** The edits between two lists of words, word by word. */
  function TotalDistance(words: seq<Token>, others: seq<Token>): nat
    requires |words| == |others|
  {
    if words == [] then 0 else Lev(words[0], others[0]) + TotalDistance(words[1..], others[1..])
  }

  lemma {:induction false} TotalDistanceGrows(words: seq<Token>, others: seq<Token>, word: Token, other: Token)
    requires |words| == |others|
    ensures TotalDistance(words + [word], others + [other]) == TotalDistance(words, others) + Lev(word, other)
  {
    if words == [] {
      assert [word][1..] == [] && [other][1..] == [] && words + [word] == [word] && others + [other] == [other];
    } else {
      assert (words + [word])[1..] == words[1..] + [word] && (others + [other])[1..] == others[1..] + [other];
      TotalDistanceGrows(words[1..], others[1..], word, other);
    }
  }

  lemma {:induction false} CostIsTotal(query: seq<Token>, candidate: seq<Token>, start: nat, n: nat)
    requires n <= |candidate| && start + n <= |query|
    ensures Cost(query, candidate, start, n) == TotalDistance(query[start..start + n], candidate[..n])
  {
    if n > 0 {
      CostIsTotal(query, candidate, start, n - 1);
      TotalDistanceGrows(query[start..start + n - 1], candidate[..n - 1], query[start + n - 1], candidate[n - 1]);
      assert query[start..start + n] == query[start..start + n - 1] + [query[start + n - 1]];
      assert candidate[..n] == candidate[..n - 1] + [candidate[n - 1]];
    }
  }

  function Stretch(query: seq<Token>, start: nat, n: nat): seq<Token>
    requires start + n <= |query|
  {
    query[start..start + n]
  }

  /** The stretch of the query from a place on matches the candidate word for word. */
  ghost predicate Near(query: seq<Token>, candidate: seq<Token>, start: nat) {
    && start + |candidate| <= |query|
    && forall k :: 0 <= k < |candidate| ==> Within(Stretch(query, start, |candidate|)[k], candidate[k], true)
  }

  lemma NearFits(query: seq<Token>, candidate: seq<Token>, start: nat)
    requires start + |candidate| <= |query|
    ensures Near(query, candidate, start) <==> Fits(query, candidate, start, |candidate|, true)
    ensures Cost(query, candidate, start, |candidate|) == TotalDistance(Stretch(query, start, |candidate|), candidate)
  {
    CostIsTotal(query, candidate, start, |candidate|);
    assert candidate[..|candidate|] == candidate;
    forall k | 0 <= k < |candidate| ensures Stretch(query, start, |candidate|)[k] == query[start + k] {
    }
  }

  /** Past its guards, the embedded score is the edits of the stretch of the query that needs fewest, and none when no
      stretch matches word for word. */
  lemma EmbeddedIsLeast(query: seq<Token>, candidate: seq<Token>, best: Option<nat>)
    requires candidate != [] && |candidate| <= |query| && (|candidate| > 1 || |candidate[0]| >= 8)
    requires IsEmbeddedScore(query, candidate, best, true)
    ensures best.None? <==> forall start: nat :: !Near(query, candidate, start)
    ensures best.Some? ==> forall start: nat :: Near(query, candidate, start) ==>
                             best.value <= TotalDistance(Stretch(query, start, |candidate|), candidate)
    ensures best.Some? ==> exists start: nat ::
                             && Near(query, candidate, start)
                             && TotalDistance(Stretch(query, start, |candidate|), candidate) == best.value
  {
    var n := |candidate|;
    forall start: nat | start + n <= |query|
      ensures Near(query, candidate, start) <==> Fits(query, candidate, start, n, true)
      ensures Cost(query, candidate, start, n) == TotalDistance(Stretch(query, start, n), candidate)
    {
      NearFits(query, candidate, start);
    }
    if best.Some? {
      var start: nat :| start < |query| - n + 1 && Fits(query, candidate, start, n, true)
                        && Cost(query, candidate, start, n) == best.value;
      assert Near(query, candidate, start);
    }
  }

  // ---------------------------------------------------------------- the identity score

  function Indexes(matches: seq<Match>): set<nat> {
    if matches == [] then {} else Indexes(matches[..|matches| - 1]) + {matches[|matches| - 1].index}
  }

  function Distances(matches: seq<Match>): nat {
    if matches == [] then 0 else Distances(matches[..|matches| - 1]) + matches[|matches| - 1].distance
  }

  ghost predicate Matches(query: seq<Token>, candidate: seq<Token>, matches: seq<Match>, pruned: bool) {
    |matches| == |query| && forall k :: 0 <= k < |query| ==> FirstNearest(query[k], candidate, Some(matches[k]), pruned)
  }

  lemma FrontMatches(query: seq<Token>, candidate: seq<Token>, matches: seq<Match>, pruned: bool)
    requires Matches(query, candidate, matches, pruned) && query != []
    ensures Matches(query[..|query| - 1], candidate, matches[..|matches| - 1], pruned)
    ensures FirstNearest(query[|query| - 1], candidate, Some(matches[|matches| - 1]), pruned)
  {
  }

  lemma OneMoreTallied(query: seq<Token>, candidate: seq<Token>, earlier: Tally, last: Match, pruned: bool)
    requires query != [] && Tallied(query[..|query| - 1], candidate, pruned) == Some(earlier)
    requires Best(query[|query| - 1], candidate, pruned) == Some(last)
    ensures Tallied(query, candidate, pruned)
         == Some(Tally(earlier.indexes + {last.index}, earlier.distance + last.distance))
  {
  }

  lemma NearestOnce(token: Token, candidate: seq<Token>, match': Match, pruned: bool)
    requires FirstNearest(token, candidate, Some(match'), pruned)
    ensures Best(token, candidate, pruned) == Some(match')
  {
    BestIsFirstNearest(token, candidate, pruned);
  }

  lemma {:induction false} TallyIs(query: seq<Token>, candidate: seq<Token>, matches: seq<Match>, pruned: bool)
    requires Matches(query, candidate, matches, pruned)
    ensures Tallied(query, candidate, pruned) == Some(Tally(Indexes(matches), Distances(matches)))
  {
    if query == [] {
      assert matches == [];
    } else {
      var front, last := matches[..|matches| - 1], matches[|matches| - 1];
      FrontMatches(query, candidate, matches, pruned);
      TallyIs(query[..|query| - 1], candidate, front, pruned);
      NearestOnce(query[|query| - 1], candidate, last, pruned);
      OneMoreTallied(query, candidate, Tally(Indexes(front), Distances(front)), last, pruned);
    }
  }

  /** Past the guards, with the first of the nearest candidate words for every query word, the score is three for every
      candidate word that is nobody's, and the distances summed. */
  lemma ScoreIs(query: seq<Token>, candidate: seq<Token>, matches: seq<Match>, pruned: bool)
    requires Matches(query, candidate, matches, pruned)
    requires query != [] && candidate != [] && (|query| > 1 || |query[0]| >= 8)
    ensures Score(query, candidate, pruned) == Some(3 * (|candidate| - |Indexes(matches)|) + Distances(matches))
  {
    TallyIs(query, candidate, matches, pruned);
  }

  ghost predicate Free(query: seq<Token>, candidate: seq<Token>, tally: Tally) {
    && tally.distance == 0 && |tally.indexes| == |query|
    && forall i :: i in tally.indexes ==> i < |candidate| && candidate[i] in query
  }

  lemma {:induction false} KnownWordsAreFree(query: seq<Token>, candidate: seq<Token>, pruned: bool)
    requires NoRepeats(query) && forall token :: token in query ==> token in candidate
    ensures Tallied(query, candidate, pruned).Some? && Free(query, candidate, Tallied(query, candidate, pruned).value)
  {
    if query != [] {
      var front, token := query[..|query| - 1], query[|query| - 1];
      assert token in query && token !in front && forall other :: other in front ==> other in query;
      KnownWordsAreFree(front, candidate, pruned);
      var i := FirstOccurrence(token, candidate);
      ExactMatch(token, candidate, i, pruned);
      assert i !in Tallied(front, candidate, pruned).value.indexes;
    }
  }

  /** A query of candidate words scores three for every candidate word it leaves out. */
  lemma LeftOutWordsCostThree(query: seq<Token>, candidate: seq<Token>, pruned: bool)
    requires NoRepeats(query) && forall token :: token in query ==> token in candidate
    requires query != [] && (|query| > 1 || |query[0]| >= 8)
    ensures Score(query, candidate, pruned) == Some(3 * (|candidate| - |query|))
  {
    KnownWordsAreFree(query, candidate, pruned);
    assert query[0] in query;
  }

  /** One long word scores its distance from the nearest candidate word, and three for every other. */
  lemma OneWordScores(word: Token, candidate: seq<Token>, nearest: Match, pruned: bool)
    requires |word| >= 8 && FirstNearest(word, candidate, Some(nearest), pruned)
    ensures Score([word], candidate, pruned) == Some(3 * (|candidate| - 1) + nearest.distance)
  {
    assert [nearest][..0] == [] && Indexes([nearest]) == {} + {nearest.index};
    ScoreIs([word], candidate, [nearest], pruned);
  }

  lemma {:induction false} FarWordTalliesNothing(query: seq<Token>, candidate: seq<Token>, word: Token, pruned: bool)
    requires forall k :: 0 <= k < |query| ==> !Within(query[k], word, pruned)
    ensures Tallied(query, candidate + [word], pruned) == Tallied(query, candidate, pruned)
  {
    assert (candidate + [word])[..|candidate|] == candidate;
    if query != [] {
      FarWordTalliesNothing(query[..|query| - 1], candidate, word, pruned);
    }
  }

  /** One more candidate word that is near no query word costs exactly three. */
  lemma FarWordCostsThree(query: seq<Token>, candidate: seq<Token>, word: Token, pruned: bool)
    requires candidate != [] && forall k :: 0 <= k < |query| ==> !Within(query[k], word, pruned)
    ensures var score, longer := Score(query, candidate, pruned), Score(query, candidate + [word], pruned);
            longer == if score.None? then None else Some(score.value + 3)
  {
    FarWordTalliesNothing(query, candidate, word, pruned);
  }
}
