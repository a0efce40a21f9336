/** Collecting values so that the first of each key is kept, in order of appearance. */
module FirstOccurrences {

  ghost predicate Holds<T, K>(seen: seq<T>, k: K, key: T -> K) {
    exists i :: 0 <= i < |seen| && key(seen[i]) == k
  }

  predicate Listed<T, K(==)>(seen: seq<T>, x: T, key: T -> K)
    ensures Listed(seen, x, key) == Holds(seen, key(x), key)
  {
    exists i :: 0 <= i < |seen| && key(seen[i]) == key(x)
  }

  /** `seen`, then each of `xs` whose key has not been seen yet. */
  function Gather<T, K(==)>(seen: seq<T>, xs: seq<T>, key: T -> K): seq<T>
    decreases |xs|
  {
    if xs == [] then seen
    else Gather(if Listed(seen, xs[0], key) then seen else seen + [xs[0]], xs[1..], key)
  }

  ghost predicate Distinct<T, K>(xs: seq<T>, key: T -> K) {
    forall i, j :: 0 <= i < j < |xs| ==> key(xs[i]) != key(xs[j])
  }

  lemma {:induction false} GatherAppend<T, K>(seen: seq<T>, xs: seq<T>, ys: seq<T>, key: T -> K)
    ensures Gather(seen, xs + ys, key) == Gather(Gather(seen, xs, key), ys, key)
    decreases |xs|
  {
    if xs == [] {
      assert xs + ys == ys;
    } else {
      assert (xs + ys)[1..] == xs[1..] + ys;
      GatherAppend(if Listed(seen, xs[0], key) then seen else seen + [xs[0]], xs[1..], ys, key);
    }
  }

  lemma {:induction false} GatherExtends<T, K>(seen: seq<T>, xs: seq<T>, key: T -> K)
    ensures seen <= Gather(seen, xs, key)
    decreases |xs|
  {
    if xs != [] {
      GatherExtends(if Listed(seen, xs[0], key) then seen else seen + [xs[0]], xs[1..], key);
    }
  }

  lemma HoldsPrefix<T, K>(seen: seq<T>, more: seq<T>, k: K, key: T -> K)
    requires seen <= more && Holds(seen, k, key)
    ensures Holds(more, k, key)
  {
    var i :| 0 <= i < |seen| && key(seen[i]) == k;
    assert more[i] == seen[i];
  }

  /** Gathering adds the keys of the new values, each once, and values from nowhere else. */
  lemma {:induction false} GatherKeys<T, K>(seen: seq<T>, xs: seq<T>, key: T -> K)
    requires Distinct(seen, key)
    ensures Distinct(Gather(seen, xs, key), key)
    ensures forall x :: x in xs ==> Holds(Gather(seen, xs, key), key(x), key)
    ensures forall x :: x in Gather(seen, xs, key) ==> x in seen || x in xs
    decreases |xs|
  {
    if xs != [] {
      var next := if Listed(seen, xs[0], key) then seen else seen + [xs[0]];
      GatherKeys(next, xs[1..], key);
      GatherExtends(next, xs[1..], key);
      assert Holds(next, key(xs[0]), key) by {
        if !Listed(seen, xs[0], key) {
          assert next[|seen|] == xs[0];
        }
      }
      HoldsPrefix(next, Gather(seen, xs, key), key(xs[0]), key);
    }
  }

  lemma {:induction false} GatherAbsorbs<T, K>(seen: seq<T>, xs: seq<T>, key: T -> K)
    requires forall x :: x in xs ==> Holds(seen, key(x), key)
    ensures Gather(seen, xs, key) == seen
    decreases |xs|
  {
    if xs != [] {
      assert xs[0] in xs;
      GatherAbsorbs(seen, xs[1..], key);
    }
  }

  /** Gathering what was gathered before is gathering it all at once. */
  lemma {:induction false} GatherGathered<T, K>(seen: seq<T>, other: seq<T>, xs: seq<T>, key: T -> K)
    requires Distinct(seen, key)
    ensures Gather(seen, Gather(other, xs, key), key) == Gather(Gather(seen, other, key), xs, key)
    decreases |xs|
  {
    if xs != [] {
      var x := xs[0];
      GatherKeys(seen, other, key);
      if Listed(other, x, key) {
        var i :| 0 <= i < |other| && key(other[i]) == key(x);
        assert other[i] in other;
        GatherGathered(seen, other, xs[1..], key);
      } else {
        GatherGathered(seen, other + [x], xs[1..], key);
        GatherAppend(seen, other, [x], key);
        GatherOne(Gather(seen, other, key), x, key);
      }
    }
  }

  lemma GatherOne<T, K>(seen: seq<T>, x: T, key: T -> K)
    ensures Gather(seen, [x], key) == if Listed(seen, x, key) then seen else seen + [x]
  {
  }

  lemma {:induction false} GatherDistinct<T, K>(seen: seq<T>, xs: seq<T>, key: T -> K)
    requires Distinct(seen + xs, key)
    ensures Gather(seen, xs, key) == seen + xs
    decreases |xs|
  {
    if xs != [] {
      assert forall i :: 0 <= i < |seen| ==> (seen + xs)[i] == seen[i];
      assert (seen + xs)[|seen|] == xs[0];
      assert seen + [xs[0]] + xs[1..] == seen + xs;
      GatherDistinct(seen + [xs[0]], xs[1..], key);
    } else {
      assert seen + xs == seen;
    }
  }

  lemma ConcatAssociates<T>(xs: seq<T>, ys: seq<T>, zs: seq<T>)
    ensures xs + ys + zs == xs + (ys + zs)
  {
  }

  lemma GatherGroupsLeft<T, K>(xs: seq<T>, ys: seq<T>, key: T -> K)
    ensures Gather([], Gather([], xs, key) + ys, key) == Gather([], xs + ys, key)
  {
    GatherAppend([], Gather([], xs, key), ys, key);
    GatherGathered([], [], xs, key);
    GatherAppend([], xs, ys, key);
  }

  lemma GatherGroupsRight<T, K>(xs: seq<T>, ys: seq<T>, key: T -> K)
    ensures Gather([], xs + Gather([], ys, key), key) == Gather([], xs + ys, key)
  {
    GatherAppend([], xs, Gather([], ys, key), key);
    GatherKeys([], xs, key);
    GatherGathered(Gather([], xs, key), [], ys, key);
    GatherAppend([], xs, ys, key);
  }

  lemma GatherNext<T, K>(seen: seq<T>, xs: seq<T>, k: nat, key: T -> K)
    requires k < |xs|
    ensures var gathered := Gather(seen, xs[..k], key);
            Gather(seen, xs[..k + 1], key) == if Listed(gathered, xs[k], key) then gathered else gathered + [xs[k]]
  {
    assert xs[..k + 1] == xs[..k] + [xs[k]];
    GatherAppend(seen, xs[..k], [xs[k]], key);
    GatherOne(Gather(seen, xs[..k], key), xs[k], key);
  }

  /** The first value of its key. */
  ghost predicate FirstOfKey<T, K>(xs: seq<T>, i: nat, key: T -> K) {
    i < |xs| && forall j :: 0 <= j < i ==> key(xs[j]) != key(xs[i])
  }

  /** What is kept is exactly the first value of each key. */
  lemma {:induction false} GatherKeepsFirsts<T, K>(xs: seq<T>, x: T, key: T -> K)
    ensures x in Gather([], xs, key) <==> exists i: nat :: FirstOfKey(xs, i, key) && xs[i] == x
    decreases |xs|
  {
    if xs != [] {
      var front, last := xs[..|xs| - 1], |xs| - 1;
      GatherKeepsFirsts(front, x, key);
      GatherNext([], xs, last, key);
      assert xs[..last + 1] == xs;
      ListedFront(xs, key);
      forall i: nat | i < last ensures FirstOfKey(xs, i, key) == FirstOfKey(front, i, key) && xs[i] == front[i] {
      }
    }
  }

  lemma ListedFront<T, K>(xs: seq<T>, key: T -> K)
    requires xs != []
    ensures Listed(Gather([], xs[..|xs| - 1], key), xs[|xs| - 1], key) == !FirstOfKey(xs, |xs| - 1, key)
  {
    var front, x := xs[..|xs| - 1], xs[|xs| - 1];
    var gathered := Gather([], front, key);
    GatherKeys([], front, key);
    if Listed(gathered, x, key) {
      var i :| 0 <= i < |gathered| && key(gathered[i]) == key(x);
      assert gathered[i] in gathered;
      var j :| 0 <= j < |front| && front[j] == gathered[i];
      assert xs[j] == front[j];
    }
    if !FirstOfKey(xs, |xs| - 1, key) {
      var j :| 0 <= j < |xs| - 1 && key(xs[j]) == key(x);
      assert front[j] in front;
    }
  }
}
