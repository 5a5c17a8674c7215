/** tools/pages.go: the edit distance behind the "did you mean" suggestion for
    unknown JavaScript methods.

    The reference notion is an edit script: a list of insertions, deletions and
    substitutions of one character, each at an arbitrary position of the string
    as it stands when that edit is made. */
module EditDistance {
  import opened Wrappers

  datatype Edit =
    | Insert(pos: nat, c: char)
    | Delete(pos: nat)
    | Substitute(pos: nat, c: char)

  /** The string after one edit, or None when the position is out of range. */
  function Perform(e: Edit, s: string): Option<string> {
    match e
    case Insert(p, c) => if p <= |s| then Some(s[..p] + [c] + s[p..]) else None
    case Delete(p) => if p < |s| then Some(s[..p] + s[p + 1..]) else None
    case Substitute(p, c) => if p < |s| then Some(s[..p] + [c] + s[p + 1..]) else None
  }

  /** The script, read left to right, turns a into b. */
  ghost predicate Turns(script: seq<Edit>, a: string, b: string) {
    if script == [] then a == b
    else
      var next := Perform(script[0], a);
      next.Some? && Turns(script[1..], next.value, b)
  }

  /** d is the length of a shortest script turning a into b. */
  ghost predicate IsDistance(d: nat, a: string, b: string) {
    && (exists script :: Turns(script, a, b) && |script| == d)
    && (forall script :: Turns(script, a, b) ==> d <= |script|)
  }

  function Min(x: nat, y: nat): nat { if x < y then x else y }

  /** The recurrence the table of `levenshtein` follows, on last characters. */
  function Dist(a: string, b: string): nat
    decreases |a| + |b|
  {
    if |a| == 0 then |b|
    else if |b| == 0 then |a|
    else
      var a', b' := a[..|a| - 1], b[..|b| - 1];
      var cost := if a[|a| - 1] == b[|b| - 1] then 0 else 1;
      Min(Dist(a, b') + 1, Min(Dist(a', b) + 1, Dist(a', b') + cost))
  }

  // ---------------------------------------------------------------- scripts

  lemma {:induction false} TurnsConcat(s1: seq<Edit>, s2: seq<Edit>, a: string, b: string, c: string)
    requires Turns(s1, a, b) && Turns(s2, b, c)
    ensures Turns(s1 + s2, a, c)
    decreases |s1|
  {
    if s1 == [] {
      assert s1 + s2 == s2;
    } else {
      TurnsConcat(s1[1..], s2, Perform(s1[0], a).value, b, c);
      assert (s1 + s2)[1..] == s1[1..] + s2;
    }
  }

  lemma TurnsOne(e: Edit, a: string)
    requires Perform(e, a).Some?
    ensures Turns([e], a, Perform(e, a).value)
  {
    var b := Perform(e, a).value;
    assert [e][1..] == [];
    assert Turns([], b, b);
  }

  /** The edit that takes the result of e back to s. */
  function Undo(e: Edit, s: string): (u: Edit)
    requires Perform(e, s).Some?
    ensures Perform(u, Perform(e, s).value) == Some(s)
  {
    match e
    case Insert(p, c) =>
      var t := s[..p] + [c] + s[p..];
      assert t[..p] + t[p + 1..] == s;
      Delete(p)
    case Delete(p) =>
      var t := s[..p] + s[p + 1..];
      assert t[..p] + [s[p]] + t[p..] == s;
      Insert(p, s[p])
    case Substitute(p, c) =>
      var t := s[..p] + [c] + s[p + 1..];
      assert t[..p] + [s[p]] + t[p + 1..] == s;
      Substitute(p, s[p])
  }

  lemma {:induction false} Reversal(script: seq<Edit>, a: string, b: string) returns (back: seq<Edit>)
    requires Turns(script, a, b)
    ensures Turns(back, b, a) && |back| == |script|
    decreases |script|
  {
    if script == [] {
      back := [];
    } else {
      var next := Perform(script[0], a).value;
      var rest := Reversal(script[1..], next, b);
      var undo := Undo(script[0], a);
      TurnsOne(undo, next);
      TurnsConcat(rest, [undo], b, next, a);
      back := rest + [undo];
    }
  }

  // ------------------------------------- the recurrence is achieved by a script

  lemma SplitBefore(a: string, p: nat, x: string)
    requires p <= |a|
    ensures (a + x)[..p] == a[..p] && (a + x)[p..] == a[p..] + x
  {}

  lemma Reassociate(u: string, v: string, x: string)
    ensures u + (v + x) == (u + v) + x
  {}

  lemma PerformBefore(e: Edit, a: string, x: string)
    requires Perform(e, a).Some?
    ensures Perform(e, a + x) == Some(Perform(e, a).value + x)
  {
    var p := e.pos;
    SplitBefore(a, p, x);
    if e.Insert? {
      Reassociate(a[..p] + [e.c], a[p..], x);
    } else {
      SplitBefore(a, p + 1, x);
      Reassociate(if e.Delete? then a[..p] else a[..p] + [e.c], a[p + 1..], x);
    }
  }

  /** Edits positioned inside a act the same way when x follows a. */
  lemma {:induction false} TurnsBefore(script: seq<Edit>, a: string, b: string, x: string)
    requires Turns(script, a, b)
    ensures Turns(script, a + x, b + x)
    decreases |script|
  {
    if script != [] {
      PerformBefore(script[0], a, x);
      TurnsBefore(script[1..], Perform(script[0], a).value, b, x);
    }
  }

  lemma Last(s: string)
    requires s != []
    ensures s == s[..|s| - 1] + [s[|s| - 1]]
  {}

  /** Deleting, appending and substituting the last character, as one-edit scripts. */
  lemma LastEdits(s: string, x: char, y: char)
    ensures Turns([Delete(|s|)], s + [x], s)
    ensures Turns([Insert(|s|, y)], s, s + [y])
    ensures Turns([Substitute(|s|, y)], s + [x], s + [y])
  {
    var sx := s + [x];
    assert sx[..|s|] == s && sx[|s| + 1..] == [] && s[..|s|] == s && s[|s|..] == [];
    assert s + [] == s && s + [y] + [] == s + [y];
    TurnsOne(Delete(|s|), sx);
    TurnsOne(Insert(|s|, y), s);
    TurnsOne(Substitute(|s|, y), sx);
  }

  lemma {:induction false} DistIsAchieved(a: string, b: string) returns (script: seq<Edit>)
    ensures Turns(script, a, b) && |script| == Dist(a, b)
    decreases |a| + |b|
  {
    if |a| == 0 && |b| == 0 {
      script := [];
    } else if |a| == 0 {
      var b', y := b[..|b| - 1], b[|b| - 1];
      Last(b);
      var rest := DistIsAchieved(a, b');
      LastEdits(b', y, y);
      TurnsConcat(rest, [Insert(|b'|, y)], a, b', b);
      script := rest + [Insert(|b'|, y)];
    } else if |b| == 0 {
      var a', x := a[..|a| - 1], a[|a| - 1];
      Last(a);
      var rest := DistIsAchieved(a', b);
      LastEdits(a', x, x);
      TurnsConcat([Delete(|a'|)], rest, a, a', b);
      script := [Delete(|a'|)] + rest;
    } else {
      var a', x := a[..|a| - 1], a[|a| - 1];
      var b', y := b[..|b| - 1], b[|b| - 1];
      Last(a);
      Last(b);
      if Dist(a, b) == Dist(a, b') + 1 {
        var rest := DistIsAchieved(a, b');
        LastEdits(b', y, y);
        TurnsConcat(rest, [Insert(|b'|, y)], a, b', b);
        script := rest + [Insert(|b'|, y)];
      } else if Dist(a, b) == Dist(a', b) + 1 {
        var rest := DistIsAchieved(a', b);
        LastEdits(a', x, x);
        TurnsConcat([Delete(|a'|)], rest, a, a', b);
        script := [Delete(|a'|)] + rest;
      } else {
        var rest := DistIsAchieved(a', b');
        TurnsBefore(rest, a', b', [x]);
        script := rest;
        if x != y {
          LastEdits(b', x, y);
          TurnsConcat(rest, [Substitute(|b'|, y)], a, b' + [x], b);
          script := rest + [Substitute(|b'|, y)];
        }
      }
    }
  }

  // ------------------------------------------ no script beats the recurrence

  lemma {:induction false} DistSelf(a: string)
    ensures Dist(a, a) == 0
    decreases |a|
  {
    if a != [] {
      DistSelf(a[..|a| - 1]);
    }
  }

  /** Removing the last character of b costs at most one. */
  lemma {:induction false} DistDropLast(a: string, u: string, x: char)
    ensures Dist(a, u) <= Dist(a, u + [x]) + 1
    decreases |a|
  {
    assert (u + [x])[..|u|] == u;
    if a != [] {
      var a' := a[..|a| - 1];
      DistDropLast(a', u, x);
      DistStep(a', a[|a| - 1], u);
      Last(a);
    }
  }

  /** One more character in a costs at most one. */
  lemma DistStep(a': string, x: char, b: string)
    ensures Dist(a' + [x], b) <= Dist(a', b) + 1
  {
    var a := a' + [x];
    assert a[..|a| - 1] == a';
  }

  lemma DistAppend(a: string, u: string, x: char)
    ensures Dist(a, u + [x]) <= Dist(a, u) + 1
  {
    var b := u + [x];
    assert b[..|b| - 1] == u;
  }

  lemma {:induction false} DistSwapLast(a: string, u: string, x: char, y: char)
    ensures Dist(a, u + [y]) <= Dist(a, u + [x]) + 1
    decreases |a|
  {
    assert (u + [x])[..|u|] == u && (u + [y])[..|u|] == u;
    if a != [] {
      var a' := a[..|a| - 1];
      DistSwapLast(a', u, x, y);
      DistStep(a', a[|a| - 1], u + [y]);
      Last(a);
    }
  }

  /** A difference of at most one between two strings survives a common suffix. */
  lemma {:induction false} DistCommonSuffix(a: string, s: string, t: string, v: string)
    requires forall p: string :: p <= a ==> Dist(p, t) <= Dist(p, s) + 1
    ensures Dist(a, t + v) <= Dist(a, s + v) + 1
    decreases |v|, |a|
  {
    if v == [] {
      assert t + v == t && s + v == s;
    } else {
      var v', c := v[..|v| - 1], v[|v| - 1];
      Last(v);
      assert t + v == (t + v') + [c] && s + v == (s + v') + [c];
      assert (t + v)[..|t + v| - 1] == t + v' && (s + v)[..|s + v| - 1] == s + v';
      DistCommonSuffix(a, s, t, v');
      if a == [] {
        assert Dist(a, t) <= Dist(a, s) + 1;
      } else {
        var a' := a[..|a| - 1];
        DistCommonSuffix(a', s, t, v');
        DistCommonSuffix(a', s, t, v);
      }
    }
  }

  /** One edit anywhere in b moves the distance by at most one. */
  lemma OneEditOneStep(a: string, e: Edit, s: string)
    requires Perform(e, s).Some?
    ensures Dist(a, Perform(e, s).value) <= Dist(a, s) + 1
  {
    var p := e.pos;
    var u := s[..p];
    if e.Insert? {
      forall q: string | q <= a ensures Dist(q, u + [e.c]) <= Dist(q, u) + 1 {
        DistAppend(q, u, e.c);
      }
      assert s == u + s[p..];
      DistCommonSuffix(a, u, u + [e.c], s[p..]);
    } else {
      assert s == (u + [s[p]]) + s[p + 1..];
      if e.Delete? {
        forall q: string | q <= a ensures Dist(q, u) <= Dist(q, u + [s[p]]) + 1 {
          DistDropLast(q, u, s[p]);
        }
        DistCommonSuffix(a, u + [s[p]], u, s[p + 1..]);
      } else {
        forall q: string | q <= a ensures Dist(q, u + [e.c]) <= Dist(q, u + [s[p]]) + 1 {
          DistSwapLast(q, u, s[p], e.c);
        }
        DistCommonSuffix(a, u + [s[p]], u + [e.c], s[p + 1..]);
      }
    }
  }

  lemma {:induction false} ScriptIsNotShorter(script: seq<Edit>, a: string, s: string, b: string)
    requires Turns(script, s, b)
    ensures Dist(a, b) <= Dist(a, s) + |script|
    decreases |script|
  {
    if script != [] {
      OneEditOneStep(a, script[0], s);
      ScriptIsNotShorter(script[1..], a, Perform(script[0], s).value, b);
    }
  }

  /** The recurrence computes the length of a shortest edit script, and only that. */
  lemma DistIsShortest(a: string, b: string)
    ensures forall d: nat :: IsDistance(d, a, b) <==> d == Dist(a, b)
  {
    var best := DistIsAchieved(a, b);
    DistSelf(a);
    forall script | Turns(script, a, b) ensures Dist(a, b) <= |script| {
      ScriptIsNotShorter(script, a, a, b);
    }
    forall d: nat ensures IsDistance(d, a, b) <==> d == Dist(a, b) {
      if IsDistance(d, a, b) {
        assert d <= |best|;
      }
    }
  }

  // ------------------------------------------------------------ metric laws

  lemma ZeroOnlyForEqual(a: string, b: string)
    ensures IsDistance(0, a, b) <==> a == b
  {
    DistIsShortest(a, b);
    DistSelf(a);
    var best := DistIsAchieved(a, b);
  }

  lemma Symmetric(a: string, b: string, d: nat)
    ensures IsDistance(d, a, b) <==> IsDistance(d, b, a)
  {
    DistIsShortest(a, b);
    DistIsShortest(b, a);
    var there := DistIsAchieved(a, b);
    var back := Reversal(there, a, b);
    assert Dist(b, a) <= |back| by { assert IsDistance(Dist(b, a), b, a); }
    there := DistIsAchieved(b, a);
    back := Reversal(there, b, a);
    assert Dist(a, b) <= |back| by { assert IsDistance(Dist(a, b), a, b); }
  }

  lemma Triangle(a: string, b: string, c: string, ab: nat, bc: nat, ac: nat)
    requires IsDistance(ab, a, b) && IsDistance(bc, b, c) && IsDistance(ac, a, c)
    ensures ac <= ab + bc
  {
    var s1 :| Turns(s1, a, b) && |s1| == ab;
    var s2 :| Turns(s2, b, c) && |s2| == bc;
    TurnsConcat(s1, s2, a, b, c);
    assert |s1 + s2| == ab + bc;
  }

  // -------------------------------------------------------- the two-row table

  /** Entry (i, j) of the table the loop fills. */
  ghost function Table(a: string, b: string, i: nat, j: nat): nat
    requires i <= |a| && j <= |b|
  {
    if i == 0 then j
    else if j == 0 then i
    else
      var cost := if a[i - 1] == b[j - 1] then 0 else 1;
      Min(Table(a, b, i, j - 1) + 1, Min(Table(a, b, i - 1, j) + 1, Table(a, b, i - 1, j - 1) + cost))
  }

  /** The recurrence, with the last characters split off. */
  lemma DistLast(p: string, a: string, x: char, q: string, b: string, y: char)
    requires p == a + [x] && q == b + [y]
    ensures Dist(p, q) == Min(Dist(p, b) + 1, Min(Dist(a, q) + 1, Dist(a, b) + if x == y then 0 else 1))
  {
    assert p[..|p| - 1] == a && q[..|q| - 1] == b;
  }

  lemma PrefixSnoc(s: string, i: nat)
    requires 0 < i <= |s|
    ensures s[..i] == s[..i - 1] + [s[i - 1]]
  {}

  lemma TableEntry(a: string, b: string, i: nat, j: nat, left: nat, up: nat, diagonal: nat)
    requires 0 < i <= |a| && 0 < j <= |b|
    requires Table(a, b, i, j - 1) == left && Table(a, b, i - 1, j) == up && Table(a, b, i - 1, j - 1) == diagonal
    ensures Table(a, b, i, j) == Min(left + 1, Min(up + 1, diagonal + if a[i - 1] == b[j - 1] then 0 else 1))
  {}

  lemma {:induction false} TableIsDist(a: string, b: string, i: nat, j: nat)
    requires i <= |a| && j <= |b|
    ensures Table(a, b, i, j) == Dist(a[..i], b[..j])
    decreases i + j
  {
    if i == 0 || j == 0 {
      TableEdge(a, b, i, j);
    } else {
      TableIsDist(a, b, i, j - 1);
      TableIsDist(a, b, i - 1, j);
      TableIsDist(a, b, i - 1, j - 1);
      TableEntry(a, b, i, j, Dist(a[..i], b[..j - 1]), Dist(a[..i - 1], b[..j]), Dist(a[..i - 1], b[..j - 1]));
      PrefixSnoc(a, i);
      PrefixSnoc(b, j);
      DistLast(a[..i], a[..i - 1], a[i - 1], b[..j], b[..j - 1], b[j - 1]);
    }
  }

  lemma TableEdge(a: string, b: string, i: nat, j: nat)
    requires i <= |a| && j <= |b| && (i == 0 || j == 0)
    ensures Table(a, b, i, j) == Dist(a[..i], b[..j]) == i + j
  {}

  lemma LastEntryIsDistance(a: string, b: string)
    ensures Table(a, b, |a|, |b|) == Dist(a, b) && IsDistance(Dist(a, b), a, b)
    ensures |a| == 0 || |b| == 0 ==> Dist(a, b) == |a| + |b|
  {
    TableIsDist(a, b, |a|, |b|);
    assert a[..|a|] == a && b[..|b|] == b;
    DistIsShortest(a, b);
  }

  lemma FirstRow(a: string, b: string, row: seq<nat>)
    requires |row| == |b| + 1 && forall k :: 0 <= k < |row| ==> row[k] == k
    ensures IsRow(row, a, b, 0)
  {}

  ghost predicate IsRow(row: seq<nat>, a: string, b: string, i: nat)
    requires i <= |a|
  {
    |row| <= |b| + 1 && forall k :: 0 <= k < |row| ==> row[k] == Table(a, b, i, k)
  }

  method Levenshtein(a: string, b: string) returns (d: nat)
    ensures IsDistance(d, a, b)
    ensures d == Dist(a, b)
  {
    var la, lb := |a|, |b|;
    LastEntryIsDistance(a, b);
    if la == 0 {
      return lb;
    }
    if lb == 0 {
      return la;
    }
    var prev, curr := new nat[lb + 1], new nat[lb + 1];
    for j := 0 to lb + 1
      invariant forall k :: 0 <= k < j ==> prev[k] == k
    {
      prev[j] := j;
    }
    FirstRow(a, b, prev[..]);
    for i := 1 to la + 1
      invariant prev.Length == curr.Length == lb + 1 && prev != curr
      invariant fresh(prev) && fresh(curr)
      invariant IsRow(prev[..], a, b, i - 1)
    {
      FillRow(a, b, i, prev, curr);
      prev, curr := curr, prev;
    }
    return prev[lb];
  }

  /** One row from the one before. */
  method FillRow(a: string, b: string, i: nat, prev: array<nat>, curr: array<nat>)
    requires 1 <= i <= |a| && prev.Length == curr.Length == |b| + 1 && prev != curr
    requires IsRow(prev[..], a, b, i - 1)
    modifies curr
    ensures IsRow(curr[..], a, b, i)
  {
    curr[0] := i;
    for j := 1 to |b| + 1
      invariant prev[..] == old(prev[..])
      invariant IsRow(curr[..j], a, b, i)
    {
      var cost := 1;
      if a[i - 1] == b[j - 1] {
        cost := 0;
      }
      curr[j] := Min(curr[j - 1] + 1, Min(prev[j] + 1, prev[j - 1] + cost));
      NextEntry(a, b, i, j, prev[..], curr[..j], cost);
      assert curr[..j + 1] == curr[..j] + [curr[j]];
    }
    assert curr[..] == curr[..|b| + 1];
  }

  lemma NextEntry(a: string, b: string, i: nat, j: nat, prev: seq<nat>, curr: seq<nat>, cost: nat)
    requires 1 <= i <= |a| && 1 <= j <= |b| && cost == if a[i - 1] == b[j - 1] then 0 else 1
    requires |prev| == |b| + 1 && IsRow(prev, a, b, i - 1) && |curr| == j && IsRow(curr, a, b, i)
    ensures IsRow(curr + [Min(curr[j - 1] + 1, Min(prev[j] + 1, prev[j - 1] + cost))], a, b, i)
  {}

  // ------------------------------------------------------- closest method name

  predicate HasPrefix(s: string, prefix: string) { prefix <= s }

  /** key names a method of obj that is within three edits of the method asked for. */
  ghost predicate Candidate(obj: string, wanted: string, known: set<string>, key: string) {
    && key in known
    && HasPrefix(key, obj + ".")
    && Dist(wanted, key[|obj| + 1..]) <= 3
  }

  /** Go visits the keys of a map in no particular order; the loop picks any remaining key. */
  method FindClosestMethod(obj: string, wanted: string, known: set<string>) returns (best: string)
    ensures best == "" <==> forall key :: !Candidate(obj, wanted, known, key)
    ensures best != "" ==>
              && Candidate(obj, wanted, known, best)
              && forall key :: Candidate(obj, wanted, known, key) ==>
                                 Dist(wanted, best[|obj| + 1..]) <= Dist(wanted, key[|obj| + 1..])
  {
    var prefix := obj + ".";
    best := "";
    var bestDist := 999;
    var left := known;
    while left != {}
      invariant left <= known
      invariant best == "" ==> bestDist == 999 && forall key :: Candidate(obj, wanted, known, key) ==> key in left
      invariant best != "" ==> Candidate(obj, wanted, known, best) && bestDist == Dist(wanted, best[|obj| + 1..])
      invariant best != "" ==> forall key :: Candidate(obj, wanted, known, key) && key !in left ==>
                                               bestDist <= Dist(wanted, key[|obj| + 1..])
      decreases left
    {
      var key :| key in left;
      left := left - {key};
      if !HasPrefix(key, prefix) {
        continue;
      }
      var dist := Levenshtein(wanted, key[|prefix|..]);
      if dist < bestDist && dist <= 3 {
        bestDist := dist;
        best := key;
      }
    }
  }
}
