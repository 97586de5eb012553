/** The edit distance behind "did you mean", and the suggestion built on it
    (apps/runtime-mcp/src/codegen/validation.ts). */
module EditDistance {
  import opened Option
  import opened Sequences

  // ----- What an edit script is, independently of any table -----

  datatype Edit = Insert(at: nat, c: char) | Delete(at: nat) | Substitute(at: nat, c: char)

  predicate Applicable(e: Edit, s: string) {
    if e.Insert? then e.at <= |s| else e.at < |s|
  }

  function Apply(e: Edit, s: string): string
    requires Applicable(e, s)
  {
    match e
    case Insert(at, c) => s[..at] + [c] + s[at..]
    case Delete(at) => s[..at] + s[at + 1..]
    case Substitute(at, c) => s[at := c]
  }

  /** Runs a script from left to right; None when some edit does not apply. */
  function Run(script: seq<Edit>, s: string): Option<string> {
    if script == [] then Some(s)
    else if Applicable(script[0], s) then Run(script[1..], Apply(script[0], s))
    else None
  }

  ghost predicate Transforms(script: seq<Edit>, a: string, b: string) {
    Run(script, a) == Some(b)
  }

  // ----- The recurrence the table is filled with -----

  function Min3(x: nat, y: nat, z: nat): nat {
    if x <= y && x <= z then x else if y <= z then y else z
  }

  function Lev(a: string, b: string): nat
    decreases |a| + |b|
  {
    if a == [] then |b|
    else if b == [] then |a|
    else if Last(a) == Last(b) then Lev(Front(a), Front(b))
    else 1 + Min3(Lev(Front(a), b), Lev(a, Front(b)), Lev(Front(a), Front(b)))
  }

  lemma LevCell(a: string, b: string, i: nat, j: nat)
    requires 1 <= i <= |a| && 1 <= j <= |b|
    ensures Lev(a[..i], b[..j])
            == if a[i - 1] == b[j - 1] then Lev(a[..i - 1], b[..j - 1])
               else 1 + Min3(Lev(a[..i - 1], b[..j]), Lev(a[..i], b[..j - 1]), Lev(a[..i - 1], b[..j - 1]))
  {
    assert Front(a[..i]) == a[..i - 1] && Front(b[..j]) == b[..j - 1];
  }

  /** The inner loop: one row of the table from the row above it. */
  method FillRow(dp: array2<nat>, a: string, b: string, i: nat)
    requires dp.Length0 == |a| + 1 && dp.Length1 == |b| + 1 && 1 <= i <= |a|
    requires forall l :: 0 <= l <= |b| ==> dp[i - 1, l] == Lev(a[..i - 1], b[..l])
    requires dp[i, 0] == i
    modifies dp
    ensures forall l :: 0 <= l <= |b| ==> dp[i, l] == Lev(a[..i], b[..l])
    ensures forall k, l :: 0 <= k <= |a| && k != i && 0 <= l <= |b| ==> dp[k, l] == old(dp[k, l])
  {
    for j := 1 to |b| + 1
      invariant forall l :: 0 <= l < j ==> dp[i, l] == Lev(a[..i], b[..l])
      invariant forall k, l :: 0 <= k <= |a| && k != i && 0 <= l <= |b| ==> dp[k, l] == old(dp[k, l])
    {
      LevCell(a, b, i, j);
      dp[i, j] := if a[i - 1] == b[j - 1] then dp[i - 1, j - 1]
                  else 1 + Min3(dp[i - 1, j], dp[i, j - 1], dp[i - 1, j - 1]);
    }
  }

  /** The table-filling method of the source: cell (i, j) holds the distance of the prefixes of
      length i and j. */
  method Levenshtein(a: string, b: string) returns (d: nat)
    ensures d == Lev(a, b)
  {
    var m, n := |a|, |b|;
    var dp := new nat[m + 1, n + 1]((i, j) => if i == 0 && j >= 0 then j else if j == 0 && i >= 0 then i else 0);
    for i := 1 to m + 1
      invariant forall k :: i <= k <= m ==> dp[k, 0] == k
      invariant forall k, l :: 0 <= k < i && 0 <= l <= n ==> dp[k, l] == Lev(a[..k], b[..l])
    {
      FillRow(dp, a, b, i);
    }
    assert a[..m] == a && b[..n] == b;
    d := dp[m, n];
  }

  // ----- One more character moves the distance by at most one -----

  lemma {:induction false} StepLeft(s: string, x: char, t: string)
    ensures Lev(s + [x], t) <= Lev(s, t) + 1
    ensures Lev(s, t) <= Lev(s + [x], t) + 1
    decreases |s| + |t|
  {
    assert Front(s + [x]) == s;
    if t != [] {
      StepLeft(s, x, Front(t));
      StepRight(s, Front(t), Last(t));
      assert Front(t) + [Last(t)] == t;
    }
  }

  lemma {:induction false} StepRight(s: string, t: string, y: char)
    ensures Lev(s, t + [y]) <= Lev(s, t) + 1
    ensures Lev(s, t) <= Lev(s, t + [y]) + 1
    decreases |s| + |t|
  {
    assert Front(t + [y]) == t;
    if s != [] {
      StepRight(Front(s), t, y);
      StepLeft(Front(s), Last(s), t);
      assert Front(s) + [Last(s)] == s;
    }
  }

  /** The words p and q are within distance one of each other, seen from any third word. */
  ghost predicate Close(p: string, q: string) {
    forall t :: Lev(p, t) <= Lev(q, t) + 1 && Lev(q, t) <= Lev(p, t) + 1
  }

  lemma {:induction false} CloseInsert(u: string, x: char)
    ensures Close(u, u + [x])
  {
    forall t ensures Lev(u, t) <= Lev(u + [x], t) + 1 && Lev(u + [x], t) <= Lev(u, t) + 1 {
      StepLeft(u, x, t);
    }
  }

  lemma LevSnoc(u: string, x: char, t: string, y: char)
    ensures Lev(u + [x], t + [y])
            == if x == y then Lev(u, t) else 1 + Min3(Lev(u, t + [y]), Lev(u + [x], t), Lev(u, t))
  {
    assert Front(u + [x]) == u && Front(t + [y]) == t;
  }

  lemma {:induction false} SubstituteStep(u: string, x: char, z: char, t: string)
    ensures Lev(u + [x], t) <= Lev(u + [z], t) + 1
    decreases |t|
  {
    if t != [] {
      var t0, y := Front(t), Last(t);
      assert t == t0 + [y];
      SubstituteStep(u, x, z, t0);
      StepLeft(u, x, t0);
      StepLeft(u, z, t0);
      StepRight(u, t0, y);
      LevSnoc(u, x, t0, y);
      LevSnoc(u, z, t0, y);
    }
  }

  lemma {:induction false} CloseStep(p: string, q: string, x: char, t: string)
    requires Close(p, q)
    ensures Lev(p + [x], t) <= Lev(q + [x], t) + 1
    decreases |t|
  {
    assert Front(p + [x]) == p && Front(q + [x]) == q;
    if t == [] {
      assert Lev(p, []) <= Lev(q, []) + 1;
    } else {
      CloseStep(p, q, x, Front(t));
    }
  }

  /** Closeness survives a common suffix. */
  lemma {:induction false} CloseSuffix(p: string, q: string, m: string)
    requires Close(p, q)
    ensures Close(p + m, q + m)
    decreases |m|
  {
    if m == [] {
      assert p + m == p && q + m == q;
    } else {
      var x, p', q' := m[0], p + [m[0]], q + [m[0]];
      forall t ensures Lev(p', t) <= Lev(q', t) + 1 && Lev(q', t) <= Lev(p', t) + 1 {
        CloseStep(p, q, x, t);
        CloseStep(q, p, x, t);
      }
      CloseSuffix(p', q', m[1..]);
      assert p' + m[1..] == p + m && q' + m[1..] == q + m;
    }
  }

  lemma InsertIsClose(s: string, at: nat, c: char)
    requires at <= |s|
    ensures Close(s, s[..at] + [c] + s[at..])
  {
    var u, m := s[..at], s[at..];
    CloseInsert(u, c);
    CloseSuffix(u, u + [c], m);
    assert u + m == s;
  }

  lemma DeleteIsClose(s: string, at: nat)
    requires at < |s|
    ensures Close(s, s[..at] + s[at + 1..])
  {
    var u, m := s[..at], s[at + 1..];
    CloseInsert(u, s[at]);
    CloseSuffix(u + [s[at]], u, m);
    assert u + [s[at]] + m == s;
  }

  lemma SubstituteIsClose(s: string, at: nat, c: char)
    requires at < |s|
    ensures Close(s, s[at := c])
  {
    var u, m := s[..at], s[at + 1..];
    forall t ensures Lev(u + [s[at]], t) <= Lev(u + [c], t) + 1 && Lev(u + [c], t) <= Lev(u + [s[at]], t) + 1 {
      SubstituteStep(u, s[at], c, t);
      SubstituteStep(u, c, s[at], t);
    }
    CloseSuffix(u + [s[at]], u + [c], m);
    assert u + [s[at]] + m == s && u + [c] + m == s[at := c];
  }

  lemma EditIsClose(e: Edit, s: string)
    requires Applicable(e, s)
    ensures Close(s, Apply(e, s))
  {
    match e
    case Insert(at, c) => InsertIsClose(s, at, c);
    case Delete(at) => DeleteIsClose(s, at);
    case Substitute(at, c) => SubstituteIsClose(s, at, c);
  }

  lemma {:induction false} LevSelf(s: string)
    ensures Lev(s, s) == 0
    decreases |s|
  {
    if s != [] {
      LevSelf(Front(s));
    }
  }

  /** No script is shorter than the distance. */
  lemma {:induction false} LowerBound(script: seq<Edit>, a: string, b: string)
    requires Transforms(script, a, b)
    ensures Lev(a, b) <= |script|
    decreases |script|
  {
    if script == [] {
      LevSelf(a);
    } else {
      LowerBound(script[1..], Apply(script[0], a), b);
      EditIsClose(script[0], a);
    }
  }

  // ----- A script of exactly that length -----

  lemma {:induction false} RunThen(xs: seq<Edit>, ys: seq<Edit>, a: string, b: string)
    requires Transforms(xs, a, b)
    ensures Run(xs + ys, a) == Run(ys, b)
    decreases |xs|
  {
    if xs == [] {
      assert xs + ys == ys;
    } else {
      assert (xs + ys)[1..] == xs[1..] + ys;
      RunThen(xs[1..], ys, Apply(xs[0], a), b);
    }
  }

  lemma ApplyWithSuffix(e: Edit, a: string, m: string)
    requires Applicable(e, a)
    ensures Applicable(e, a + m) && Apply(e, a + m) == Apply(e, a) + m
  {
    match e
    case Insert(at, c) => assert (a + m)[at..] == a[at..] + m;
    case Delete(at) => assert (a + m)[at + 1..] == a[at + 1..] + m;
    case Substitute(at, c) => assert (a + m)[at := c] == a[at := c] + m;
  }

  /** A script never looks past the end of its word, so a suffix rides along. */
  lemma {:induction false} RunWithSuffix(script: seq<Edit>, a: string, b: string, m: string)
    requires Transforms(script, a, b)
    ensures Transforms(script, a + m, b + m)
    decreases |script|
  {
    if script != [] {
      ApplyWithSuffix(script[0], a, m);
      RunWithSuffix(script[1..], Apply(script[0], a), b, m);
    }
  }

  lemma ThenEdit(script: seq<Edit>, e: Edit, a: string, b: string)
    requires Transforms(script, a, b) && Applicable(e, b)
    ensures Transforms(script + [e], a, Apply(e, b))
  {
    RunThen(script, [e], a, b);
    assert Run([e], b) == Run([e][1..], Apply(e, b));
  }

  lemma EditThen(e: Edit, script: seq<Edit>, a: string, b: string)
    requires Applicable(e, a) && Transforms(script, Apply(e, a), b)
    ensures Transforms([e] + script, a, b)
  {
    assert ([e] + script)[1..] == script;
  }

  lemma {:induction false} ShortestScript(a: string, b: string) returns (script: seq<Edit>)
    ensures Transforms(script, a, b)
    ensures |script| == Lev(a, b)
    decreases |a| + |b|
  {
    script := [];
    if a == [] && b == [] {
    } else if a == [] || (b != [] && Last(a) != Last(b) && Lev(a, b) == 1 + Lev(a, Front(b))) {
      var rest := ShortestScript(a, Front(b));
      var e := Insert(|b| - 1, Last(b));
      ThenEdit(rest, e, a, Front(b));
      assert Apply(e, Front(b)) == b;
      script := rest + [e];
    } else if b == [] || (Last(a) != Last(b) && Lev(a, b) == 1 + Lev(Front(a), b)) {
      var rest := ShortestScript(Front(a), b);
      var e := Delete(|a| - 1);
      assert Apply(e, a) == Front(a);
      EditThen(e, rest, a, b);
      script := [e] + rest;
    } else {
      var rest := ShortestScript(Front(a), Front(b));
      script := ShortestForLast(a, b, rest);
    }
  }

  lemma FrontThenLast(s: string)
    requires s != []
    ensures Front(s) + [Last(s)] == s
  {
  }

  lemma KeepOrSubstitute(a: string, x: char, b: string, y: char, rest: seq<Edit>) returns (script: seq<Edit>)
    requires Transforms(rest, a, b)
    ensures Transforms(script, a + [x], b + [y])
    ensures |script| == |rest| + if x == y then 0 else 1
  {
    RunWithSuffix(rest, a, b, [x]);
    if x == y {
      script := rest;
    } else {
      SubstituteLast(rest, a + [x], b, x, y);
      script := rest + [Substitute(|b|, y)];
    }
  }

  /** The last characters are kept or substituted. */
  lemma ShortestForLast(a: string, b: string, rest: seq<Edit>) returns (script: seq<Edit>)
    requires a != [] && b != [] && Transforms(rest, Front(a), Front(b))
    ensures Transforms(script, a, b)
    ensures |script| == |rest| + if Last(a) == Last(b) then 0 else 1
  {
    FrontThenLast(a);
    FrontThenLast(b);
    script := KeepOrSubstitute(Front(a), Last(a), Front(b), Last(b), rest);
  }

  lemma SubstituteLast(rest: seq<Edit>, a: string, front: string, x: char, y: char)
    requires Transforms(rest, a, front + [x])
    ensures Transforms(rest + [Substitute(|front|, y)], a, front + [y])
  {
    var e := Substitute(|front|, y);
    assert Apply(e, front + [x]) == front + [y];
    ThenEdit(rest, e, a, front + [x]);
  }

  /** The table computes the length of a shortest edit script. */
  lemma LevIsShortestScript(a: string, b: string)
    ensures exists script :: Transforms(script, a, b) && |script| == Lev(a, b)
    ensures forall script :: Transforms(script, a, b) ==> Lev(a, b) <= |script|
  {
    var best := ShortestScript(a, b);
    forall script | Transforms(script, a, b) ensures Lev(a, b) <= |script| {
      LowerBound(script, a, b);
    }
  }

  // ----- Consequences -----

  lemma LevZeroIffEqual(a: string, b: string)
    ensures Lev(a, b) == 0 <==> a == b
  {
    LevSelf(a);
    var script := ShortestScript(a, b);
  }

  lemma {:induction false} LevSymmetric(a: string, b: string)
    ensures Lev(a, b) == Lev(b, a)
    decreases |a| + |b|
  {
    if a != [] && b != [] {
      LevSymmetric(Front(a), Front(b));
      LevSymmetric(Front(a), b);
      LevSymmetric(a, Front(b));
    }
  }

  lemma LevTriangle(a: string, b: string, c: string)
    ensures Lev(a, c) <= Lev(a, b) + Lev(b, c)
  {
    var first := ShortestScript(a, b);
    var second := ShortestScript(b, c);
    RunThen(first, second, a, b);
    LowerBound(first + second, a, c);
  }

  lemma {:induction false} LevBounds(a: string, b: string)
    ensures |a| - |b| <= Lev(a, b) && |b| - |a| <= Lev(a, b)
    ensures Lev(a, b) <= |a| || Lev(a, b) <= |b|
    decreases |a| + |b|
  {
    if a != [] && b != [] {
      LevBounds(Front(a), Front(b));
      LevBounds(Front(a), b);
      LevBounds(a, Front(b));
    }
  }

  // ----- The suggestion -----

  /** Either word starts with the other, once both are lower-cased. */
  predicate PrefixRelated(lower: string -> string, input: string, v: string) {
    lower(input) <= lower(v) || lower(v) <= lower(input)
  }

  ghost predicate FirstPrefixRelated(lower: string -> string, input: string, candidates: seq<string>, k: nat)
    requires k < |candidates|
  {
    && PrefixRelated(lower, input, candidates[k])
    && forall j :: 0 <= j < k ==> !PrefixRelated(lower, input, candidates[j])
  }

  ghost predicate WithinReach(lower: string -> string, input: string, v: string) {
    Lev(lower(input), lower(v)) <= |input| / 2
  }

  /** Candidate k is the first of the first n at the least distance from the input. */
  ghost predicate NearestOf(lower: string -> string, input: string, candidates: seq<string>, k: nat, n: nat)
    requires k < n <= |candidates|
  {
    && (forall j :: 0 <= j < k ==>
          Lev(lower(input), lower(candidates[k])) < Lev(lower(input), lower(candidates[j])))
    && (forall j :: k < j < n ==>
          Lev(lower(input), lower(candidates[k])) <= Lev(lower(input), lower(candidates[j])))
  }

  ghost predicate FirstNearest(lower: string -> string, input: string, candidates: seq<string>, k: nat)
    requires k < |candidates|
  {
    NearestOf(lower, input, candidates, k, |candidates|)
  }

  /** The second loop: the first candidate of least distance, if it is within reach. */
  method Nearest(lower: string -> string, input: string, candidates: seq<string>) returns (hint: Option<string>)
    ensures hint.None? ==> forall j :: 0 <= j < |candidates| ==> !WithinReach(lower, input, candidates[j])
    ensures hint.Some? ==> exists k :: 0 <= k < |candidates| && candidates[k] == hint.value
                             && WithinReach(lower, input, hint.value) && FirstNearest(lower, input, candidates, k)
  {
    var maxDist := |input| / 2;
    hint := None;
    var bestDist := 0;
    ghost var best := 0;
    for i := 0 to |candidates|
      invariant hint.None? ==> forall j :: 0 <= j < i ==> !WithinReach(lower, input, candidates[j])
      invariant hint.Some? ==> best < i && candidates[best] == hint.value && bestDist <= maxDist
                               && bestDist == Lev(lower(input), lower(candidates[best]))
                               && NearestOf(lower, input, candidates, best, i)
    {
      var d := Levenshtein(lower(input), lower(candidates[i]));
      if (hint.None? || d < bestDist) && d <= maxDist {
        bestDist, hint, best := d, Some(candidates[i]), i;
      }
    }
  }

  /** The lower-casing of the host language is a parameter. */
  method Suggest(lower: string -> string, input: string, candidates: seq<string>) returns (hint: Option<string>)
    ensures forall k :: 0 <= k < |candidates| && FirstPrefixRelated(lower, input, candidates, k)
              ==> hint == Some(candidates[k])
    ensures (forall j :: 0 <= j < |candidates| ==> !PrefixRelated(lower, input, candidates[j])) ==>
              match hint
              case None => forall j :: 0 <= j < |candidates| ==> !WithinReach(lower, input, candidates[j])
              case Some(v) => exists k :: 0 <= k < |candidates| && candidates[k] == v
                                && WithinReach(lower, input, v) && FirstNearest(lower, input, candidates, k)
  {
    for i := 0 to |candidates|
      invariant forall j :: 0 <= j < i ==> !PrefixRelated(lower, input, candidates[j])
    {
      if PrefixRelated(lower, input, candidates[i]) {
        return Some(candidates[i]);
      }
    }
    hint := Nearest(lower, input, candidates);
  }
}
