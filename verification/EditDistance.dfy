/** The spelling suggestions of pkg/config: levenshteinDistance and
    findSimilarField. Texts are sequences of bytes, as the source indexes and
    measures them; lower is strings.ToLower. */
module EditDistance {
  import opened Strings

  function Min(a: nat, b: nat): nat {
    if a < b then a else b
  }

  function Min3(a: nat, b: nat, c: nat): nat {
    Min(Min(a, b), c)
  }

  function Cost(a: char, b: char): nat {
    if a == b then 0 else 1
  }

  /** The distance between two texts, by their last characters. */
  function Dist(a: string, b: string): nat
    decreases |a| + |b|
  {
    if a == "" then |b|
    else if b == "" then |a|
    else
      var a', b' := a[..|a| - 1], b[..|b| - 1];
      Min3(Dist(a', b) + 1, Dist(a, b') + 1, Dist(a', b') + Cost(a[|a| - 1], b[|b| - 1]))
  }

  // ---- the matrix

  /** levenshteinDistance: fills the matrix row by row. */
  method LevenshteinDistance(lower: string -> string, x: string, y: string) returns (d: nat)
    ensures d == Dist(lower(x), lower(y))
  {
    var a, b := lower(x), lower(y);
    if |a| == 0 {
      return |b|;
    }
    if |b| == 0 {
      return |a|;
    }
    var m := new nat[|a| + 1, |b| + 1];
    for i := 0 to |a| + 1
      invariant forall k :: 0 <= k < i ==> m[k, 0] == k
    {
      m[i, 0] := i;
    }
    for j := 0 to |b| + 1
      invariant forall k :: 0 <= k <= |a| ==> m[k, 0] == k
      invariant forall k :: 0 <= k < j ==> m[0, k] == k
    {
      m[0, j] := j;
    }
    for i := 1 to |a| + 1
      invariant forall k :: 0 <= k <= |a| ==> m[k, 0] == k
      invariant forall p, q :: 0 <= p < i && 0 <= q <= |b| ==> m[p, q] == Dist(a[..p], b[..q])
    {
      FillRow(a, b, m, i);
    }
    assert a[..|a|] == a && b[..|b|] == b;
    return m[|a|, |b|];
  }

  /** One pass of the inner loop. */
  method FillRow(a: string, b: string, m: array2<nat>, i: nat)
    requires m.Length0 == |a| + 1 && m.Length1 == |b| + 1 && 0 < i <= |a|
    requires m[i, 0] == i
    requires forall q :: 0 <= q <= |b| ==> m[i - 1, q] == Dist(a[..i - 1], b[..q])
    modifies m
    ensures forall q :: 0 <= q <= |b| ==> m[i, q] == Dist(a[..i], b[..q])
    ensures forall p, q :: 0 <= p <= |a| && p != i && 0 <= q <= |b| ==> m[p, q] == old(m[p, q])
  {
    for j := 1 to |b| + 1
      invariant forall q :: 0 <= q < j ==> m[i, q] == Dist(a[..i], b[..q])
      invariant forall p, q :: 0 <= p <= |a| && p != i && 0 <= q <= |b| ==> m[p, q] == old(m[p, q])
    {
      var cost := 1;
      if a[i - 1] == b[j - 1] {
        cost := 0;
      }
      DistStep(a, b, i, j);
      m[i, j] := Min3(m[i - 1, j] + 1, m[i, j - 1] + 1, m[i - 1, j - 1] + cost);
    }
  }

  lemma DistStep(a: string, b: string, i: nat, j: nat)
    requires 0 < i <= |a| && 0 < j <= |b|
    ensures Dist(a[..i], b[..j]) ==
            Min3(Dist(a[..i - 1], b[..j]) + 1, Dist(a[..i], b[..j - 1]) + 1,
                 Dist(a[..i - 1], b[..j - 1]) + Cost(a[i - 1], b[j - 1]))
  {
    assert a[..i][..i - 1] == a[..i - 1] && b[..j][..j - 1] == b[..j - 1];
  }

  // ---- edit scripts

  datatype Edit = Keep | Replace(to: char) | Insert(c: char) | Delete

  /** The text a script makes of a, or None when it does not fit; a script is
      read from its end, as the text is. */
  function Apply(script: seq<Edit>, a: string): Option<string> {
    if script == [] then if a == "" then Some("") else None
    else
      var before := script[..|script| - 1];
      match script[|script| - 1]
      case Insert(c) => Then(Apply(before, a), [c])
      case Delete => if a == "" then None else Apply(before, a[..|a| - 1])
      case Keep => if a == "" then None else Then(Apply(before, a[..|a| - 1]), [a[|a| - 1]])
      case Replace(c) => if a == "" then None else Then(Apply(before, a[..|a| - 1]), [c])
  }

  function Then(r: Option<string>, tail: string): Option<string> {
    match r case Some(s) => Some(s + tail) case None => None
  }

  function Edits(script: seq<Edit>): nat {
    if script == [] then 0
    else Edits(script[..|script| - 1]) + if script[|script| - 1] == Keep then 0 else 1
  }

  lemma InsertAll(b: string) returns (script: seq<Edit>)
    ensures Apply(script, "") == Some(b) && Edits(script) == |b|
  {
    if b == "" {
      script := [];
    } else {
      var s := InsertAll(b[..|b| - 1]);
      script := s + [Insert(b[|b| - 1])];
      assert script[..|s|] == s && b == b[..|b| - 1] + [b[|b| - 1]];
    }
  }

  lemma DeleteAll(a: string) returns (script: seq<Edit>)
    ensures Apply(script, a) == Some("") && Edits(script) == |a|
  {
    if a == "" {
      script := [];
    } else {
      var s := DeleteAll(a[..|a| - 1]);
      script := s + [Delete];
      assert script[..|s|] == s;
    }
  }

  /** Some script of that length turns a into b. */
  lemma {:induction false} ScriptExists(a: string, b: string) returns (script: seq<Edit>)
    ensures Apply(script, a) == Some(b) && Edits(script) == Dist(a, b)
    decreases |a| + |b|
  {
    if a == "" {
      script := InsertAll(b);
    } else if b == "" {
      script := DeleteAll(a);
    } else {
      var a', b' := a[..|a| - 1], b[..|b| - 1];
      var x, y := a[|a| - 1], b[|b| - 1];
      assert b == b' + [y];
      var s: seq<Edit>;
      if Dist(a, b) == Dist(a', b) + 1 {
        s := ScriptExists(a', b);
        script := s + [Delete];
      } else if Dist(a, b) == Dist(a, b') + 1 {
        s := ScriptExists(a, b');
        script := s + [Insert(y)];
      } else {
        s := ScriptExists(a', b');
        script := s + [if x == y then Keep else Replace(y)];
      }
      assert script[..|s|] == s;
    }
  }

  /** No script that turns a into b is shorter. */
  lemma {:induction false} NoShorterScript(script: seq<Edit>, a: string, b: string)
    requires Apply(script, a) == Some(b)
    ensures Dist(a, b) <= Edits(script)
    decreases |script|
  {
    if script != [] {
      var before := script[..|script| - 1];
      match script[|script| - 1] {
        case Insert(c) =>
          var s := Apply(before, a).value;
          NoShorterScript(before, a, s);
          assert b[..|b| - 1] == s;
          DistBounds(a, s);
        case Delete =>
          NoShorterScript(before, a[..|a| - 1], b);
          DistBounds(a[..|a| - 1], b);
        case Keep =>
          var s := Apply(before, a[..|a| - 1]).value;
          NoShorterScript(before, a[..|a| - 1], s);
          assert b[..|b| - 1] == s;
        case Replace(c) =>
          var s := Apply(before, a[..|a| - 1]).value;
          NoShorterScript(before, a[..|a| - 1], s);
          assert b[..|b| - 1] == s;
      }
    }
  }

  /** The distance is the length of a shortest edit script. */
  lemma ShortestScript(a: string, b: string)
    ensures exists script :: Apply(script, a) == Some(b) && Edits(script) == Dist(a, b)
    ensures forall script :: Apply(script, a) == Some(b) ==> Dist(a, b) <= Edits(script)
  {
    var s := ScriptExists(a, b);
    forall script | Apply(script, a) == Some(b)
      ensures Dist(a, b) <= Edits(script)
    {
      NoShorterScript(script, a, b);
    }
  }

  // ---- a metric

  lemma {:induction false} DistBounds(a: string, b: string)
    ensures Dist(a, b) <= if |a| < |b| then |b| else |a|
    ensures Dist(a, b) >= |a| - |b| && Dist(a, b) >= |b| - |a|
    decreases |a| + |b|
  {
    if a != "" && b != "" {
      var a', b' := a[..|a| - 1], b[..|b| - 1];
      DistBounds(a', b);
      DistBounds(a, b');
      DistBounds(a', b');
    }
  }

  lemma {:induction false} DistSymmetric(a: string, b: string)
    ensures Dist(a, b) == Dist(b, a)
    decreases |a| + |b|
  {
    if a != "" && b != "" {
      var a', b' := a[..|a| - 1], b[..|b| - 1];
      DistSymmetric(a', b);
      DistSymmetric(a, b');
      DistSymmetric(a', b');
    }
  }

  lemma {:induction false} DistZero(a: string, b: string)
    ensures Dist(a, b) == 0 <==> a == b
    decreases |a| + |b|
  {
    if a != "" && b != "" {
      var a', b' := a[..|a| - 1], b[..|b| - 1];
      DistZero(a', b');
      assert a == a' + [a[|a| - 1]] && b == b' + [b[|b| - 1]];
    }
  }

  lemma {:induction false} DistTriangle(a: string, b: string, c: string)
    ensures Dist(a, c) <= Dist(a, b) + Dist(b, c)
    decreases |a| + |b| + |c|
  {
    if a == "" || b == "" || c == "" {
      DistBounds(a, b);
      DistBounds(b, c);
      DistBounds(a, c);
    } else {
      var a', b', c' := a[..|a| - 1], b[..|b| - 1], c[..|c| - 1];
      DistTriangle(a', b, c);
      DistTriangle(a, b, c');
      DistTriangle(a, b', c);
      DistTriangle(a, b', c');
      DistTriangle(a', b', c);
      DistTriangle(a', b', c');
    }
  }

  /** The distance is a metric, between the length difference and the longer length. */
  lemma {:induction false} DistIsMetric(a: string, b: string, c: string)
    ensures Dist(a, b) == 0 <==> a == b
    ensures Dist(a, b) == Dist(b, a)
    ensures Dist(a, c) <= Dist(a, b) + Dist(b, c)
    ensures |a| - |b| <= Dist(a, b) <= if |a| < |b| then |b| else |a|
  {
    DistZero(a, b);
    DistSymmetric(a, b);
    DistTriangle(a, b, c);
    DistBounds(a, b);
  }

  // ---- the suggestion

  const MAX_TYPO := 3

  function FieldDist(lower: string -> string, field: string, valid: string): nat {
    Dist(lower(field), lower(valid))
  }

  /** By distance, then length, then alphabet. */
  predicate Closer(lower: string -> string, field: string, a: string, b: string) {
    var da, db := FieldDist(lower, field, a), FieldDist(lower, field, b);
    da < db || (da == db && (|a| < |b| || (|a| == |b| && Less(a, b))))
  }

  /** The least of the names seen, among those closer than a typo. */
  ghost predicate IsSuggestion(lower: string -> string, field: string, seen: set<string>, best: string) {
    if best in seen && FieldDist(lower, field, best) < MAX_TYPO
    then forall v :: v in seen && v != best ==> Closer(lower, field, best, v)
    else best == "" && forall v :: v in seen ==> FieldDist(lower, field, v) >= MAX_TYPO
  }

  /** findSimilarField: the names come in whatever order the map yields them. */
  method FindSimilarField(lower: string -> string, field: string, validFields: set<string>) returns (bestMatch: string)
    ensures IsSuggestion(lower, field, validFields, bestMatch)
  {
    bestMatch := "";
    var bestDistance: nat := MAX_TYPO;
    var rest := validFields;
    while rest != {}
      invariant rest <= validFields
      invariant IsSuggestion(lower, field, validFields - rest, bestMatch)
      invariant bestDistance == if bestMatch in validFields - rest && FieldDist(lower, field, bestMatch) < MAX_TYPO
                                then FieldDist(lower, field, bestMatch) else MAX_TYPO
      decreases |rest|
    {
      var valid :| valid in rest;
      ghost var seen := validFields - rest;
      rest := rest - {valid};
      assert validFields - rest == seen + {valid};
      var dist := LevenshteinDistance(lower, field, valid);
      LessTotal(valid, bestMatch);
      ghost var before := bestMatch;
      if dist < bestDistance {
        bestDistance := dist;
        bestMatch := valid;
      } else if dist == bestDistance && bestMatch != "" {
        if |valid| < |bestMatch| || (|valid| == |bestMatch| && Less(valid, bestMatch)) {
          bestMatch := valid;
        }
      }
      NextSuggestion(lower, field, seen, before, valid, bestMatch);
    }
    assert validFields - rest == validFields;
  }

  lemma CloserTransitive(lower: string -> string, field: string, a: string, b: string, c: string)
    requires Closer(lower, field, a, b) && Closer(lower, field, b, c)
    ensures Closer(lower, field, a, c)
  {
    if |a| == |b| == |c| && Less(a, b) && Less(b, c) {
      LessTransitive(a, b, c);
    }
  }

  lemma NextSuggestion(
      lower: string -> string, field: string, seen: set<string>, before: string, valid: string, after: string)
    requires IsSuggestion(lower, field, seen, before) && valid !in seen
    requires var known := before in seen && FieldDist(lower, field, before) < MAX_TYPO;
             var bound := if known then FieldDist(lower, field, before) else MAX_TYPO;
             var d := FieldDist(lower, field, valid);
             after == if d < bound || (d == bound && before != ""
                        && (|valid| < |before| || (|valid| == |before| && Less(valid, before))))
                      then valid else before
    ensures IsSuggestion(lower, field, seen + {valid}, after)
  {
    LessTotal(valid, before);
    var known := before in seen && FieldDist(lower, field, before) < MAX_TYPO;
    if known && after == valid {
      forall v | v in seen + {valid} && v != valid
        ensures Closer(lower, field, valid, v)
      {
        if v != before {
          CloserTransitive(lower, field, valid, before, v);
        }
      }
    }
  }

  /** Hence the suggestion does not depend on the iteration order. */
  lemma SuggestionIsUnique(lower: string -> string, field: string, valid: set<string>, a: string, b: string)
    requires IsSuggestion(lower, field, valid, a) && IsSuggestion(lower, field, valid, b)
    ensures a == b
  {
    LessTotal(a, b);
  }

  /** a before b in the alphabet, for texts of one length. */
  predicate Before(a: string, b: string)
    requires |a| == |b|
  {
    exists k :: 0 <= k < |a| && a[..k] == b[..k] && a[k] < b[k]
  }

  lemma LessIsBefore(a: string, b: string)
    requires |a| == |b| && Less(a, b)
    ensures Before(a, b)
  {
    var k := LessAt(a, b);
  }

  /** What is suggested: a name at most two edits away if there is one, no other
      name nearer, none as near and shorter, none as near and as long before it. */
  lemma SuggestionMeans(lower: string -> string, field: string, valid: set<string>, best: string)
    requires IsSuggestion(lower, field, valid, best)
    ensures best !in valid ==> best == ""
    ensures var dist := (v: string) => Dist(lower(field), lower(v));
            if exists v :: v in valid && dist(v) <= 2 then
              && best in valid && dist(best) <= 2
              && (forall v :: v in valid ==> dist(best) <= dist(v))
              && (forall v :: v in valid && dist(v) == dist(best) ==> |best| <= |v|)
              && (forall v :: v in valid && v != best && dist(v) == dist(best) && |v| == |best| ==> Before(best, v))
            else best == ""
  {
    forall v | v in valid && v != best && |v| == |best| && Less(best, v)
      ensures Before(best, v)
    {
      LessIsBefore(best, v);
    }
    assert forall v :: v in valid && v != best && FieldDist(lower, field, best) < 3 && best in valid ==>
        Closer(lower, field, best, v);
  }
}
