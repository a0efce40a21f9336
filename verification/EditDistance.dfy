/** The edit distance with unit costs, and the facts about it that the matcher rests on. */
module EditDistance {
  import opened Sums

  function Least(x: nat, y: nat): nat {
    if x <= y then x else y
  }

  function Lev(a: string, b: string): nat
    decreases |a| + |b|
  {
    if a == "" then |b|
    else if b == "" then |a|
    else
      var a', b' := a[..|a| - 1], b[..|b| - 1];
      Least(Least(Lev(a', b) + 1, Lev(a, b') + 1), Lev(a', b') + if a[|a| - 1] == b[|b| - 1] then 0 else 1)
  }

  function Gap(a: string, b: string): nat {
    if |a| >= |b| then |a| - |b| else |b| - |a|
  }

  function Longest(a: string, b: string): nat {
    if |a| >= |b| then |a| else |b|
  }

  /** No edit script is shorter than the difference in length. */
  lemma {:induction false} LevAtLeastGap(a: string, b: string)
    ensures Lev(a, b) >= Gap(a, b)
    decreases |a| + |b|
  {
    if a != "" && b != "" {
      LevAtLeastGap(a[..|a| - 1], b);
      LevAtLeastGap(a, b[..|b| - 1]);
      LevAtLeastGap(a[..|a| - 1], b[..|b| - 1]);
    }
  }

  lemma {:induction false} LevOfSelf(a: string)
    ensures Lev(a, a) == 0
  {
    if a != "" {
      LevOfSelf(a[..|a| - 1]);
    }
  }

  /** Only equal words are at distance zero. */
  lemma {:induction false} LevZero(a: string, b: string)
    ensures Lev(a, b) == 0 <==> a == b
    decreases |a| + |b|
  {
    LevOfSelf(a);
    if a != "" && b != "" {
      var a', b' := a[..|a| - 1], b[..|b| - 1];
      LevZero(a', b');
      assert a == a' + [a[|a| - 1]] && b == b' + [b[|b| - 1]];
    }
  }

  lemma {:induction false} LevSymmetric(a: string, b: string)
    ensures Lev(a, b) == Lev(b, a)
    decreases |a| + |b|
  {
    if a != "" && b != "" {
      LevSymmetric(a[..|a| - 1], b);
      LevSymmetric(a, b[..|b| - 1]);
      LevSymmetric(a[..|a| - 1], b[..|b| - 1]);
    }
  }

  /** A word is its suffix's length away from its extension. */
  lemma {:induction false} LevOfExtension(a: string, more: string)
    ensures Lev(a, a + more) == |more|
    decreases |more|
  {
    LevAtLeastGap(a, a + more);
    if more == "" {
      assert a + more == a;
      LevOfSelf(a);
    } else if a != "" {
      LevOfExtension(a, more[..|more| - 1]);
      assert (a + more)[..|a + more| - 1] == a + more[..|more| - 1];
    } else {
      assert a + more == more;
    }
  }

  // ---------------------------------------------------------------- the least number of edits

  /** One place of an edit script: a letter kept, exchanged, dropped or put in. */
  datatype Edit = Keep | Exchange(letter: char) | Drop | Put(letter: char)

  /** What a script makes of a word, read from the end; None when it does not fit the word. */
  function Edited(word: string, script: seq<Edit>): Option<string> {
    if script == [] then
      if word == "" then Some("") else None
    else
      var rest, edit := script[..|script| - 1], script[|script| - 1];
      if edit.Put? then Appended(Edited(word, rest), [edit.letter])
      else if word == "" then None
      else
        var front := Edited(word[..|word| - 1], rest);
        match edit
        case Keep => Appended(front, [word[|word| - 1]])
        case Exchange(letter) => Appended(front, [letter])
        case Drop => front
  }

  function Appended(front: Option<string>, more: string): Option<string> {
    if front.None? then None else Some(front.value + more)
  }

  function Edits(script: seq<Edit>): nat {
    if script == [] then 0 else Edits(script[..|script| - 1]) + if script[|script| - 1].Keep? then 0 else 1
  }

  /** No script that turns one word into another has fewer edits than their distance. */
  lemma {:induction false} NoScriptIsShorter(a: string, b: string, script: seq<Edit>)
    requires Edited(a, script) == Some(b)
    ensures Lev(a, b) <= Edits(script)
    decreases |script|
  {
    if script != [] {
      var rest, edit := script[..|script| - 1], script[|script| - 1];
      var a' := if edit.Put? then a else a[..|a| - 1];
      var b' := Edited(a', rest).value;
      NoScriptIsShorter(a', b', rest);
      if !edit.Drop? {
        assert b[..|b| - 1] == b';
      }
      EmptyDistance(a', b');
    }
  }

  lemma EmptyDistance(a: string, b: string)
    ensures Lev(a, "") == |a| && Lev("", b) == |b|
  {
  }

  /** One more place at the end of a script. */
  lemma ScriptGrows(a: string, b: string, script: seq<Edit>, edit: Edit, last: char)
    requires Edited(a, script) == Some(b)
    ensures Edits(script + [edit]) == Edits(script) + if edit.Keep? then 0 else 1
    ensures edit.Put? ==> Edited(a, script + [edit]) == Some(b + [edit.letter])
    ensures edit.Keep? ==> Edited(a + [last], script + [edit]) == Some(b + [last])
    ensures edit.Exchange? ==> Edited(a + [last], script + [edit]) == Some(b + [edit.letter])
    ensures edit.Drop? ==> Edited(a + [last], script + [edit]) == Some(b)
  {
    assert (script + [edit])[..|script|] == script;
    assert (a + [last])[..|a|] == a;
  }

  /** The words before the last place of a script. */
  ghost predicate LastPlace(a: string, b: string, a': string, b': string, edit: Edit) {
    match edit
    case Keep => a != "" && a == a' + [a[|a| - 1]] && b == b' + [a[|a| - 1]]
    case Exchange(letter) => a != "" && a == a' + [a[|a| - 1]] && b == b' + [letter]
    case Drop => a != "" && a == a' + [a[|a| - 1]] && b == b'
    case Put(letter) => a == a' && b == b' + [letter]
  }

  /** The last place of a shortest script. */
  lemma LastEdit(a: string, b: string) returns (a': string, b': string, edit: Edit)
    requires a != "" || b != ""
    ensures LastPlace(a, b, a', b', edit) && |a'| + |b'| < |a| + |b|
    ensures Lev(a, b) == Lev(a', b') + if edit.Keep? then 0 else 1
  {
    EmptyDistance(a, b);
    if b != "" && Lev(a, b) == Lev(a, b[..|b| - 1]) + 1 {
      a', b', edit := a, b[..|b| - 1], Put(b[|b| - 1]);
    } else if a != "" && Lev(a, b) == Lev(a[..|a| - 1], b) + 1 {
      a', b', edit := a[..|a| - 1], b, Drop;
    } else {
      a', b' := a[..|a| - 1], b[..|b| - 1];
      edit := if a[|a| - 1] == b[|b| - 1] then Keep else Exchange(b[|b| - 1]);
    }
  }

  lemma PlaceGrows(a: string, b: string, a': string, b': string, edit: Edit, script: seq<Edit>)
    requires LastPlace(a, b, a', b', edit) && Edited(a', script) == Some(b')
    ensures Edited(a, script + [edit]) == Some(b)
    ensures Edits(script + [edit]) == Edits(script) + if edit.Keep? then 0 else 1
  {
    ScriptGrows(a', b', script, edit, if a == "" then ' ' else a[|a| - 1]);
  }

  /** And some script has exactly as many. */
  lemma {:induction false} SomeScriptIsExact(a: string, b: string) returns (script: seq<Edit>)
    ensures Edited(a, script) == Some(b) && Edits(script) == Lev(a, b)
    decreases |a| + |b|
  {
    if a == "" && b == "" {
      script := [];
    } else {
      var a', b', edit := LastEdit(a, b);
      var front := SomeScriptIsExact(a', b');
      PlaceGrows(a, b, a', b', edit, front);
      script := front + [edit];
    }
  }
}
