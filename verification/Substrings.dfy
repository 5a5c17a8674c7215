/** strings.Index, strings.Count and strings.Replace for a non-empty text to look for. */
module Substrings {

  predicate OccursAt(s: string, t: string, i: int) { 0 <= i && i + |t| <= |s| && s[i..i + |t|] == t }

  /** strings.Index of t in s[from..], counted from the beginning of s. */
  function IndexFrom(s: string, t: string, from: nat): int
    decreases |s| - from
  {
    if from + |t| > |s| then -1 else if OccursAt(s, t, from) then from else IndexFrom(s, t, from + 1)
  }

  /** It is the first occurrence, or there is none. */
  lemma {:induction false} IndexIsFirst(s: string, t: string, from: nat)
    ensures var i := IndexFrom(s, t, from);
      if i == -1 then forall k :: from <= k ==> !OccursAt(s, t, k)
      else from <= i && OccursAt(s, t, i) && forall k :: from <= k < i ==> !OccursAt(s, t, k)
    decreases |s| - from
  {
    if from + |t| <= |s| && !OccursAt(s, t, from) {
      IndexIsFirst(s, t, from + 1);
    }
  }

  /** Where strings.Index finds t in the rest of s. */
  function IndexIn(s: string, t: string): int { IndexFrom(s, t, 0) }

  lemma {:induction false} IndexOfRest(s: string, t: string, offset: nat, from: nat)
    requires offset <= |s|
    ensures var i := IndexFrom(s[offset..], t, from);
      IndexFrom(s, t, offset + from) == if i == -1 then -1 else offset + i
    decreases |s| - from
  {
    if offset + from + |t| <= |s| {
      assert s[offset..][from..from + |t|] == s[offset + from..offset + from + |t|];
      IndexOfRest(s, t, offset, from + 1);
    }
  }

  /** strings.Index in a suffix finds the first occurrence in the whole that is not before it. */
  lemma IndexInSuffix(s: string, t: string, offset: nat)
    requires offset <= |s|
    ensures var i := IndexIn(s[offset..], t);
      if i == -1 then forall k :: offset <= k ==> !OccursAt(s, t, k)
      else 0 <= i && OccursAt(s, t, offset + i) && forall k :: offset <= k < offset + i ==> !OccursAt(s, t, k)
  {
    var i := IndexIn(s[offset..], t);
    IndexIsFirst(s[offset..], t, 0);
    IndexOfRest(s, t, offset, 0);
    assert offset + 0 == offset;
    IndexIsFirst(s, t, offset);
  }

  function AfterIndex(s: string, t: string, from: nat): (r: nat)
    requires t != "" && from <= |s| && IndexFrom(s, t, from) != -1
    ensures from < r <= |s|
  {
    IndexIsFirst(s, t, from);
    IndexFrom(s, t, from) + |t|
  }

  /** strings.Count: occurrences that do not overlap, from left to right. */
  function CountFrom(s: string, t: string, from: nat): nat
    requires t != "" && from <= |s|
    decreases |s| - from
  {
    if IndexFrom(s, t, from) == -1 then 0 else 1 + CountFrom(s, t, AfterIndex(s, t, from))
  }

  function Count(s: string, t: string): nat
    requires t != ""
  {
    CountFrom(s, t, 0)
  }

  /** s[from..] with its first n occurrences replaced, all of them when n is negative. */
  function ReplaceFrom(s: string, t: string, with: string, n: int, from: nat): string
    requires t != "" && from <= |s|
    decreases |s| - from
  {
    if n == 0 || IndexFrom(s, t, from) == -1 then s[from..]
    else
      IndexIsFirst(s, t, from);
      s[from..IndexFrom(s, t, from)] + (with + ReplaceFrom(s, t, with, n - 1, AfterIndex(s, t, from)))
  }

  /** strings.Replace. */
  function Replace(s: string, t: string, with: string, n: int): string
    requires t != ""
  {
    ReplaceFrom(s, t, with, n, 0)
  }

  /** The text with the occurrence at i exchanged. */
  function Exchange(s: string, t: string, with: string, i: int): string
    requires OccursAt(s, t, i)
  {
    s[..i] + with + s[i + |t|..]
  }

  /** A limit of one replaces the first occurrence and nothing else. */
  lemma ReplaceOne(s: string, t: string, with: string)
    requires t != "" && IndexIn(s, t) != -1
    ensures OccursAt(s, t, IndexIn(s, t))
    ensures Replace(s, t, with, 1) == Exchange(s, t, with, IndexIn(s, t))
  {
    IndexIsFirst(s, t, 0);
    var i := IndexIn(s, t);
    assert s[0..i] == s[..i];
    assert ReplaceFrom(s, t, with, 0, i + |t|) == s[i + |t|..];
  }

  /** How many occurrences a limit of n lets strings.Replace change. */
  function Limit(n: int, count: nat): nat { if n < 0 || n > count then count else n }

  /** One step of strings.Replace, spelled out. */
  lemma ReplaceStep(s: string, t: string, with: string, n: int, from: nat)
    requires t != "" && from <= |s| && n != 0 && IndexFrom(s, t, from) != -1
    ensures
      var i := IndexFrom(s, t, from);
      && from <= i && OccursAt(s, t, i) && AfterIndex(s, t, from) == i + |t|
      && ReplaceFrom(s, t, with, n, from) == s[from..i] + (with + ReplaceFrom(s, t, with, n - 1, i + |t|))
      && CountFrom(s, t, from) == 1 + CountFrom(s, t, i + |t|)
  {
    IndexIsFirst(s, t, from);
  }

  // ------------------------------------------- which occurrences are exchanged

  /** Left to right from a position: each the first occurrence that begins at or after the end
      of the one before. */
  ghost predicate FirstOccurrences(s: string, t: string, from: nat, ps: seq<nat>)
    decreases |ps|
  {
    ps == [] || (
      && from <= ps[0] && OccursAt(s, t, ps[0]) && (forall k :: from <= k < ps[0] ==> !OccursAt(s, t, k))
      && FirstOccurrences(s, t, ps[0] + |t|, ps[1..]))
  }

  /** Where the last of them ends. */
  function EndOf(ps: seq<nat>, length: nat, from: nat): nat
    decreases |ps|
  {
    if ps == [] then from else EndOf(ps[1..], length, ps[0] + length)
  }

  /** s[from..] with what stands at the positions exchanged, and nothing else. */
  function ExchangedAt(s: string, t: string, with: string, from: nat, ps: seq<nat>): string
    requires from <= |s| && FirstOccurrences(s, t, from, ps)
    decreases |ps|
  {
    if ps == [] then s[from..]
    else s[from..ps[0]] + (with + ExchangedAt(s, t, with, ps[0] + |t|, ps[1..]))
  }

  /** strings.Replace exchanges the leftmost occurrences that do not overlap, as many as the
      limit allows and strings.Count finds; below the limit none is left behind them. */
  lemma {:induction false} ReplaceExchanges(s: string, t: string, with: string, n: int, from: nat)
    returns (ps: seq<nat>)
    requires t != "" && from <= |s|
    ensures FirstOccurrences(s, t, from, ps) && |ps| == Limit(n, CountFrom(s, t, from))
    ensures ReplaceFrom(s, t, with, n, from) == ExchangedAt(s, t, with, from, ps)
    ensures n < 0 || |ps| < n ==> forall k :: EndOf(ps, |t|, from) <= k ==> !OccursAt(s, t, k)
    decreases |s| - from
  {
    IndexIsFirst(s, t, from);
    if n == 0 || IndexFrom(s, t, from) == -1 {
      return [];
    }
    ReplaceStep(s, t, with, n, from);
    var i := IndexFrom(s, t, from);
    var rest := ReplaceExchanges(s, t, with, n - 1, i + |t|);
    ps := [i] + rest;
    assert ps[1..] == rest;
  }

  /** So each exchange changes the length by the same amount. */
  lemma {:induction false} ExchangedLength(s: string, t: string, with: string, from: nat, ps: seq<nat>)
    requires from <= |s| && FirstOccurrences(s, t, from, ps)
    ensures |ExchangedAt(s, t, with, from, ps)| == |s| - from + |ps| * (|with| - |t|)
    decreases |ps|
  {
    if ps != [] {
      ExchangedLength(s, t, with, ps[0] + |t|, ps[1..]);
      OneMore(|ps| - 1, |with| - |t|);
    }
  }

  lemma OneMore(k: int, d: int)
    ensures (k + 1) * d == k * d + d
  {}

  /** Replacing all, told character by character. */
  function Scan(s: string, t: string, with: string): string
    requires t != ""
    decreases |s|
  {
    if s == "" then "" else if t <= s then with + Scan(s[|t|..], t, with) else [s[0]] + Scan(s[1..], t, with)
  }

  lemma IndexSkips(s: string, t: string, from: nat)
    requires t != "" && from < |s| && !OccursAt(s, t, from)
    ensures IndexFrom(s, t, from) == IndexFrom(s, t, from + 1)
  {}

  lemma ReplaceSkips(s: string, t: string, with: string, n: int, from: nat)
    requires t != "" && n < 0 && from < |s| && !OccursAt(s, t, from)
    ensures ReplaceFrom(s, t, with, n, from) == [s[from]] + ReplaceFrom(s, t, with, n, from + 1)
  {
    IndexSkips(s, t, from);
    var i := IndexFrom(s, t, from);
    if i == -1 {
      assert s[from..] == [s[from]] + s[from + 1..];
    } else {
      ReplaceStep(s, t, with, n, from);
      ReplaceStep(s, t, with, n, from + 1);
      FirstOff(s, from, i, with + ReplaceFrom(s, t, with, n - 1, i + |t|));
    }
  }

  lemma FirstOff(s: string, from: nat, to: nat, rest: string)
    requires from < to <= |s|
    ensures [s[from]] + (s[from + 1..to] + rest) == s[from..to] + rest
  {}

  lemma ReplaceHere(s: string, t: string, with: string, n: int, from: nat)
    requires t != "" && n < 0 && OccursAt(s, t, from)
    ensures ReplaceFrom(s, t, with, n, from) == with + ReplaceFrom(s, t, with, n - 1, from + |t|)
  {
    assert IndexFrom(s, t, from) == from;
    assert s[from..from] == "";
  }

  lemma ScanAtOccurrence(s: string, t: string, with: string, from: nat)
    requires t != "" && OccursAt(s, t, from)
    ensures Scan(s[from..], t, with) == with + Scan(s[from + |t|..], t, with)
  {
    var tail := s[from..];
    assert tail[..|t|] == s[from..from + |t|];
    assert tail[|t|..] == s[from + |t|..];
  }

  lemma ScanElsewhere(s: string, t: string, with: string, from: nat)
    requires t != "" && from < |s| && !OccursAt(s, t, from)
    ensures Scan(s[from..], t, with) == [s[from]] + Scan(s[from + 1..], t, with)
  {
    var tail := s[from..];
    assert tail[1..] == s[from + 1..];
    assert |t| <= |tail| ==> tail[..|t|] == s[from..from + |t|];
  }

  lemma {:induction false} ReplaceAllIsScan(s: string, t: string, with: string, n: int, from: nat)
    requires t != "" && n < 0 && from <= |s|
    ensures ReplaceFrom(s, t, with, n, from) == Scan(s[from..], t, with)
    decreases |s| - from
  {
    if from == |s| {
      assert s[from..] == "";
    } else {
      if OccursAt(s, t, from) {
        ScanAtOccurrence(s, t, with, from);
        ReplaceHere(s, t, with, n, from);
        ReplaceAllIsScan(s, t, with, n - 1, from + |t|);
      } else {
        ScanElsewhere(s, t, with, from);
        ReplaceSkips(s, t, with, n, from);
        ReplaceAllIsScan(s, t, with, n, from + 1);
      }
    }
  }
}
