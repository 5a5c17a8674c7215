/** When the dry run of an action shows what the runtime will produce: the exact condition on
    the payload, for templates that are written properly and for all templates. */
module DryRuns {
  import opened Wrappers
  import opened Text
  import opened Substrings
  import opened Templates

  // ------------------------------------------------------------- the conditions

  /** Every pair of opening braces begins a placeholder. */
  ghost predicate WellBraced(s: string) {
    forall i {:trigger s[i]} :: 0 <= i < |s| - 1 && s[i] == '{' && s[i + 1] == '{' ==> MatchHead(s[i..]).Some?
  }

  /** The value holds the text, or ends in a beginning of it. */
  predicate Begins(v: string, t: string) { exists i :: 0 <= i < |v| && (t <= v[i..] || v[i..] <= t) }

  /** The value can go on with the text, where some of it has come before: it starts with an
      end of the text, or lies inside it, as the empty value does. */
  predicate GoesOn(v: string, t: string) { exists m :: 1 <= m < |t| && (t[m..] <= v || v <= t[m..]) }

  /** What matters of it in any template, and in a well-braced one. */
  predicate Disturbs(v: string, t: string, anyText: bool) { Begins(v, t) || (anyText && GoesOn(v, t)) }

  /** A key whose value is its own placeholder changes nothing. */
  predicate Active(payload: Payload, key: string) { key in payload && payload[key] != Placeholder(key) }

  /** No value begins, nor goes on with, the placeholder of another active key. */
  ghost predicate Undisturbed(payload: Payload, anyText: bool) {
    forall a, b :: a in payload && Active(payload, b) && a != b ==> !Disturbs(payload[a], Placeholder(b), anyText)
  }

  /** The same for one order: only keys that come later look at a value. */
  ghost predicate OrderUndisturbed(payload: Payload, order: seq<string>, anyText: bool)
    requires forall k :: k in order ==> k in payload
  {
    forall i, j :: 0 <= i < j < |order| && Active(payload, order[j]) ==>
                     !Disturbs(payload[order[i]], Placeholder(order[j]), anyText)
  }

  predicate AllWords(payload: Payload) { forall k :: k in payload ==> IsWord(k) }

  // ------------------------------------------------------------- one more key

  lemma ResolveChar(c: char, rest: string, payload: Payload)
    requires MatchHead([c] + rest) == None
    ensures ResolveTemplate([c] + rest, payload) == [c] + ResolveTemplate(rest, payload)
  {
    assert ([c] + rest)[1..] == rest;
  }

  lemma PrefixOfSum(t: string, v: string, rest: string)
    requires t <= v + rest
    ensures t <= v || v <= t
    ensures v <= t ==> t[|v|..] <= rest
  {
    assert (v + rest)[..|t|] == t;
    if |t| <= |v| {
      assert v[..|t|] == (v + rest)[..|t|];
    } else {
      assert t[..|v|] == (v + rest)[..|v|] == v;
      assert t[|v|..] == (v + rest)[|v|..|t|] == rest[..|t| - |v|];
    }
  }

  lemma BeginsTail(v: string, t: string)
    requires v != "" && !Begins(v, t)
    ensures !(t <= v) && !(v <= t) && !Begins(v[1..], t)
  {
    assert v[0..] == v;
    forall i | 0 <= i < |v[1..]| ensures !(t <= v[1..][i..]) && !(v[1..][i..] <= t) {
      assert v[1..][i..] == v[i + 1..];
    }
  }

  /** A value in which the text does not begin is passed over. */
  lemma {:induction false} ScanValue(v: string, rest: string, t: string, with: string)
    requires t != "" && !Begins(v, t)
    ensures Scan(v + rest, t, with) == v + Scan(rest, t, with)
    decreases |v|
  {
    if v == "" {
      assert v + rest == rest;
    } else {
      BeginsTail(v, t);
      HeadFirst(v, rest);
      if t <= v + rest {
        PrefixOfSum(t, v, rest);
      }
      ScanChar(v[0], v[1..] + rest, t, with);
      ScanValue(v[1..], rest, t, with);
      HeadFirst(v, Scan(rest, t, with));
    }
  }

  /** The values put in so far leave the key's placeholder alone. */
  ghost predicate Leaves(done: Payload, key: string, anyText: bool) {
    forall a :: a in done ==> !Disturbs(done[a], Placeholder(key), anyText)
  }

  lemma WellBracedTail(s: string, k: nat)
    requires WellBraced(s) && k <= |s|
    ensures WellBraced(s[k..])
  {
    forall i {:trigger s[k..][i]} | 0 <= i < |s[k..]| - 1 && s[k..][i] == '{' && s[k..][i + 1] == '{'
      ensures MatchHead(s[k..][i..]).Some?
    {
      assert s[k + i] == '{' && s[k + i + 1] == '{';
      assert s[k..][i..] == s[k + i..];
    }
  }

  /** An end of a placeholder that shows in the result stood in the template already. */
  lemma {:induction false} EndIsOwn(s: string, done: Payload, key: string, m: nat)
    requires IsWord(key) && Leaves(done, key, true) && 1 <= m <= |key| + 4
    requires Placeholder(key)[m..] <= ResolveTemplate(s, done)
    ensures Placeholder(key)[m..] <= s
    decreases |s|
  {
    var t, end := Placeholder(key), Placeholder(key)[m..];
    if s != "" && end != "" {
      match MatchHead(s)
      case None =>
        var rest := ResolveTemplate(s[1..], done);
        assert end == [t[m]] + t[m + 1..] && ([s[0]] + rest)[1..] == rest;
        EndTail(end, s[0], rest);
        EndIsOwn(s[1..], done, key, m + 1);
        assert s == [s[0]] + s[1..];
      case Some(w) =>
        MatchSplits(s);
        EndMeetsNoMatch(w, ResolveTemplate(s[|w| + 4..], done), done, key, m);
    }
  }

  lemma EndTail(end: string, c: char, rest: string)
    requires end != "" && end <= [c] + rest
    ensures end[0] == c && end[1..] <= rest
  {
    assert ([c] + rest)[1..] == rest && ([c] + rest)[0] == c;
  }

  /** No end of a placeholder is the start of one. */
  lemma EndIsNoStart(key: string, m: nat, w: string)
    requires IsWord(key) && IsWord(w) && 1 <= m < |key| + 4
    ensures !(Placeholder(key)[m..] <= Placeholder(w)) && !(Placeholder(w) <= Placeholder(key)[m..])
  {
    var end, start := Placeholder(key)[m..], Placeholder(w);
    assert start[0] == '{' && start[1] == '{';
    assert end[0] == Placeholder(key)[m];
    assert m == 1 ==> end[1] == key[0];
  }

  /** What a placeholder of the template becomes goes on with no placeholder of the key. */
  lemma EndMeetsNoMatch(w: string, rest: string, done: Payload, key: string, m: nat)
    requires IsWord(key) && IsWord(w) && Leaves(done, key, true) && 1 <= m < |key| + 4
    ensures !(Placeholder(key)[m..] <= Resolved(w, done) + rest)
  {
    var end := Placeholder(key)[m..];
    if w in done {
      assert !Disturbs(done[w], Placeholder(key), true);
      assert !(end <= done[w]) && !(done[w] <= end);
    } else {
      EndIsNoStart(key, m, w);
    }
    if end <= Resolved(w, done) + rest {
      PrefixOfSum(end, Resolved(w, done), rest);
    }
  }

  /** Where the template matches nothing, the key's placeholder is not completed either. */
  lemma NotBegun(s: string, done: Payload, key: string, anyText: bool)
    requires s != "" && MatchHead(s) == None && IsWord(key) && Leaves(done, key, anyText)
    requires anyText || WellBraced(s)
    ensures !(Placeholder(key) <= [s[0]] + ResolveTemplate(s[1..], done))
  {
    var t, rest := Placeholder(key), ResolveTemplate(s[1..], done);
    assert t[1..][0] == '{';
    if !anyText {
      NotOpened(s, done);
    }
    if t <= [s[0]] + rest {
      EndTail(t, s[0], rest);
      if anyText {
        EndIsOwn(s[1..], done, key, 1);
        assert s == [s[0]] + s[1..] && t == [t[0]] + t[1..];
        PrefixIsMatch(s, key);
      }
    }
  }

  /** A brace that opens no placeholder is not followed by another one, before or after. */
  lemma NotOpened(s: string, done: Payload)
    requires WellBraced(s) && s != "" && MatchHead(s).None?
    ensures s[0] != '{' || ResolveTemplate(s[1..], done) == "" || ResolveTemplate(s[1..], done)[0] != '{'
  {
    if s[0] == '{' && s[1..] != "" {
      assert s[0..] == s;
      assert s[1..][0] == s[1] != '{';
    }
  }

  /** Resolving some keys and replacing one more is resolving them together. */
  lemma {:induction false} OneKeyMore(s: string, done: Payload, key: string, value: string, anyText: bool)
    requires anyText || WellBraced(s)
    requires IsWord(key) && key !in done && Leaves(done, key, anyText)
    ensures Scan(ResolveTemplate(s, done), Placeholder(key), value) == ResolveTemplate(s, done[key := value])
    decreases |s|
  {
    if s != "" {
      match MatchHead(s)
      case Some(w) =>
        MatchSplits(s);
        var rest := s[|w| + 4..];
        if !anyText {
          WellBracedTail(s, |w| + 4);
        }
        OneKeyMore(rest, done, key, value, anyText);
        ValuePassed(w, ResolveTemplate(rest, done), done, key, value, anyText);
      case None =>
        if !anyText {
          WellBracedTail(s, 1);
        }
        OneKeyMore(s[1..], done, key, value, anyText);
        NotBegun(s, done, key, anyText);
        ScanChar(s[0], ResolveTemplate(s[1..], done), Placeholder(key), value);
    }
  }

  lemma ValuePassed(w: string, rest: string, done: Payload, key: string, value: string, anyText: bool)
    requires IsWord(w) && IsWord(key) && key !in done && Leaves(done, key, anyText)
    ensures Scan(Resolved(w, done) + rest, Placeholder(key), value)
         == Resolved(w, done[key := value]) + Scan(rest, Placeholder(key), value)
  {
    if w in done {
      assert !Disturbs(done[w], Placeholder(key), anyText);
      ScanValue(done[w], rest, Placeholder(key), value);
    } else if w == key {
      ScanHere(Placeholder(key), rest, value);
    } else {
      ScanOther(w, rest, key, value);
    }
  }

  lemma {:induction false} ScanSame(s: string, t: string)
    requires t != ""
    ensures Scan(s, t, t) == s
    decreases |s|
  {
    if s != "" {
      if t <= s {
        ScanSame(s[|t|..], t);
        PrefixSplits(t, s);
      } else {
        ScanSame(s[1..], t);
        assert s == [s[0]] + s[1..];
      }
    }
  }

  lemma IdleResolves(w: string, done: Payload, key: string)
    requires key !in done
    ensures Resolved(w, done[key := Placeholder(key)]) == Resolved(w, done)
  {}

  lemma {:induction false} IdleKey(s: string, done: Payload, key: string)
    requires key !in done
    ensures ResolveTemplate(s, done[key := Placeholder(key)]) == ResolveTemplate(s, done)
    decreases |s|
  {
    if s != "" {
      match MatchHead(s)
      case Some(w) =>
        IdleResolves(w, done, key);
        IdleKey(s[|w| + 4..], done, key);
      case None =>
        IdleKey(s[1..], done, key);
    }
  }

  // ---------------------------------------------------------- key after key

  /** The entries met so far. */
  function Part(payload: Payload, order: seq<string>): Payload { map k | k in payload && k in order :: payload[k] }

  lemma PartGrows(payload: Payload, order: seq<string>)
    requires order != [] && Last(order) in payload
    ensures Part(payload, order) == Part(payload, Front(order))[Last(order) := payload[Last(order)]]
  {
    assert order == Front(order) + [Last(order)];
  }

  lemma {:induction false} NoKeys(s: string)
    ensures ResolveTemplate(s, map[]) == s
    decreases |s|
  {
    if s != "" {
      match MatchHead(s)
      case Some(w) =>
        MatchSplits(s);
        NoKeys(s[|w| + 4..]);
      case None =>
        NoKeys(s[1..]);
        assert s == [s[0]] + s[1..];
    }
  }

  lemma ReplaceIsScan(s: string, t: string, with: string)
    requires t != ""
    ensures Replace(s, t, with, -1) == Scan(s, t, with)
  {
    ReplaceAllIsScan(s, t, with, -1, 0);
    assert s[0..] == s;
  }

  lemma NextReplaced(s: string, payload: Payload, done: Payload, key: string, anyText: bool)
    requires anyText || WellBraced(s)
    requires IsWord(key) && key !in done && key in payload && (Active(payload, key) ==> Leaves(done, key, anyText))
    ensures Replace(ResolveTemplate(s, done), Placeholder(key), payload[key], -1)
         == ResolveTemplate(s, done[key := payload[key]])
  {
    ReplaceIsScan(ResolveTemplate(s, done), Placeholder(key), payload[key]);
    if Active(payload, key) {
      OneKeyMore(s, done, key, payload[key], anyText);
    } else {
      ScanSame(ResolveTemplate(s, done), Placeholder(key));
      IdleKey(s, done, key);
    }
  }

  lemma OrderLeaves(payload: Payload, order: seq<string>, anyText: bool)
    requires order != [] && forall k :: k in order ==> k in payload
    requires OrderUndisturbed(payload, order, anyText)
    ensures OrderUndisturbed(payload, Front(order), anyText)
    ensures Active(payload, Last(order)) ==> Leaves(Part(payload, Front(order)), Last(order), anyText)
  {
    if Active(payload, Last(order)) {
      forall a | a in Part(payload, Front(order)) ensures !Disturbs(payload[a], Placeholder(Last(order)), anyText) {
        var i :| 0 <= i < |Front(order)| && Front(order)[i] == a;
        assert order[i] == a && order[|order| - 1] == Last(order);
      }
    }
    forall i, j | 0 <= i < j < |Front(order)| && Active(payload, Front(order)[j])
      ensures !Disturbs(payload[Front(order)[i]], Placeholder(Front(order)[j]), anyText)
    {
      assert Front(order)[i] == order[i] && Front(order)[j] == order[j];
    }
  }

  /** For one order: the keys replaced in turn give what the single pass gives. */
  lemma {:induction false} InTurnAgrees(s: string, payload: Payload, order: seq<string>, anyText: bool)
    requires (anyText || WellBraced(s)) && AllWords(payload)
    requires forall k :: k in order ==> k in payload
    requires forall i, j :: 0 <= i < j < |order| ==> order[i] != order[j]
    requires OrderUndisturbed(payload, order, anyText)
    ensures ResolveInTurn(s, payload, order) == ResolveTemplate(s, Part(payload, order))
    decreases |order|
  {
    if order == [] {
      assert Part(payload, order) == map[];
      NoKeys(s);
    } else {
      var before, key := Front(order), Last(order);
      OrderLeaves(payload, order, anyText);
      InTurnAgrees(s, payload, before, anyText);
      PartGrows(payload, order);
      NextReplaced(s, payload, Part(payload, before), key, anyText);
    }
  }

  lemma OrderAgrees(s: string, payload: Payload, order: seq<string>, anyText: bool)
    requires (anyText || WellBraced(s)) && AllWords(payload) && Enumerates(order, payload)
    requires OrderUndisturbed(payload, order, anyText)
    ensures ResolveInTurn(s, payload, order) == ResolveTemplate(s, payload)
  {
    InTurnAgrees(s, payload, order, anyText);
    assert Part(payload, order) == payload;
  }

  lemma AllOrdersUndisturbed(payload: Payload, order: seq<string>, anyText: bool)
    requires Undisturbed(payload, anyText) && Enumerates(order, payload)
    ensures OrderUndisturbed(payload, order, anyText)
  {}

  // -------------------------------------------------- where the two part ways

  /** A template in which the value of key a comes between pieces of the placeholder of b: its
      first m characters, and what follows its first k. */
  function Gap(a: string, b: string, m: nat, k: nat): string
    requires m <= |b| + 4 && k <= |b| + 4
  {
    Placeholder(b)[..m] + (Placeholder(a) + Placeholder(b)[k..])
  }

  lemma PieceStartsNoWord(a: string, b: string, m: nat, rest: string, w: string)
    requires IsWord(a) && IsWord(b) && IsWord(w) && 1 <= m < |b| + 4
    ensures !(Placeholder(w) <= Placeholder(b)[..m] + (Placeholder(a) + rest))
  {
    var t, p := Placeholder(b), Placeholder(w);
    var s := t[..m] + (Placeholder(a) + rest);
    assert s[m] == '{' && s[m + 1] == '{';
    assert p[2] == w[0] && forall i :: 2 <= i < |p| ==> p[i] != '{';
    assert p[|w| + 2] == '}';
    assert |w| + 4 <= m ==> s[|w| + 2] == t[|w| + 2] == b[|w|] != '}';
  }

  /** No word in braces begins within the first piece. */
  lemma PieceOpensNothing(a: string, b: string, m: nat, rest: string)
    requires IsWord(a) && IsWord(b) && 1 <= m < |b| + 4
    ensures MatchHead(Placeholder(b)[..m] + (Placeholder(a) + rest)) == None
  {
    var s := Placeholder(b)[..m] + (Placeholder(a) + rest);
    if MatchHead(s).Some? {
      MatchIsPlaceholder(s);
      PieceStartsNoWord(a, b, m, rest, MatchHead(s).value);
    }
  }

  lemma OpenedByTwo(s: string)
    requires |s| >= 3 && (s[1] != '{' || s[2] == '{')
    ensures MatchHead(s) == None
  {
    assert s[2..][0] == s[2];
  }

  lemma {:induction false} ResolvePlain(plain: string, rest: string, payload: Payload)
    requires NoBrace(plain)
    ensures ResolveTemplate(plain + rest, payload) == plain + ResolveTemplate(rest, payload)
    decreases |plain|
  {
    if plain == "" {
      assert plain + rest == rest;
    } else {
      HeadFirst(plain, rest);
      ResolveChar(plain[0], plain[1..] + rest, payload);
      ResolvePlain(plain[1..], rest, payload);
      HeadFirst(plain, ResolveTemplate(rest, payload));
    }
  }

  /** At most the first character is an opening brace, and it opens nothing. */
  lemma PlainAfterFirst(piece: string, rest: string, payload: Payload)
    requires piece != "" && NoBrace(piece[1..]) && MatchHead(piece + rest) == None
    ensures ResolveTemplate(piece + rest, payload) == piece + ResolveTemplate(rest, payload)
  {
    HeadFirst(piece, rest);
    ResolveChar(piece[0], piece[1..] + rest, payload);
    ResolvePlain(piece[1..], rest, payload);
    HeadFirst(piece, ResolveTemplate(rest, payload));
  }

  lemma SecondOpensNothing(a: string, b: string, m: nat, rest: string)
    requires IsWord(a) && IsWord(b) && 2 <= m < |b| + 4
    ensures MatchHead(Placeholder(b)[1..m] + (Placeholder(a) + rest)) == None
  {
    var s := Placeholder(b)[1..m] + (Placeholder(a) + rest);
    if m == 2 {
      assert s[2] == '{';
    } else {
      assert s[1] == Placeholder(b)[2] == b[0];
    }
    OpenedByTwo(s);
  }

  /** The value of a is put in between the pieces, and nothing else happens. */
  lemma PieceResolves(a: string, b: string, m: nat, rest: string, payload: Payload)
    requires IsWord(a) && IsWord(b) && m < |b| + 4
    ensures ResolveTemplate(Placeholder(b)[..m] + (Placeholder(a) + rest), payload)
         == Placeholder(b)[..m] + (Resolved(a, payload) + ResolveTemplate(rest, payload))
  {
    var t, all, out := Placeholder(b), Placeholder(a) + rest, Resolved(a, payload) + ResolveTemplate(rest, payload);
    ResolveMatch(a, rest, payload);
    if m == 0 {
      assert t[..0] + all == all && t[..0] + out == out;
    } else {
      PieceOpensNothing(a, b, m, rest);
      HeadFirst(t[..m], all);
      HeadFirst(t[..m], out);
      assert t[..m][1..] == t[1..m];
      ResolveChar('{', t[1..m] + all, payload);
      if m == 1 {
        assert t[1..1] + all == all && t[1..1] + out == out;
      } else {
        SecondOpensNothing(a, b, m, rest);
        PlainAfterFirst(t[1..m], all, payload);
      }
    }
  }

  lemma EndResolves(b: string, k: nat, payload: Payload)
    requires IsWord(b) && 1 <= k <= |b| + 4
    ensures ResolveTemplate(Placeholder(b)[k..], payload) == Placeholder(b)[k..]
  {
    var end := Placeholder(b)[k..];
    assert end + "" == end;
    if k < |b| + 4 {
      if |end| >= 3 {
        assert end[1] == Placeholder(b)[k + 1];
        OpenedByTwo(end);
      }
      PlainAfterFirst(end, "", payload);
    }
  }

  lemma GapResolves(a: string, b: string, m: nat, k: nat, payload: Payload)
    requires IsWord(a) && IsWord(b) && m < |b| + 4 && 1 <= k <= |b| + 4
    ensures ResolveTemplate(Gap(a, b, m, k), payload)
         == Placeholder(b)[..m] + (Resolved(a, payload) + Placeholder(b)[k..])
  {
    PieceResolves(a, b, m, Placeholder(b)[k..], payload);
    EndResolves(b, k, payload);
  }

  lemma BracesOf(b: string, i: nat)
    requires IsWord(b) && i < |b| + 4
    ensures Placeholder(b)[i] == '{' <==> i < 2
  {}

  lemma OnePairOnly(a: string, b: string, k: nat, i: nat)
    requires IsWord(a) && IsWord(b) && 1 <= k <= |b| + 4
    requires 1 <= i < |a| + 4 + (|b| + 4 - k) - 1
    ensures var s := Placeholder(a) + Placeholder(b)[k..]; s[i] != '{' || s[i + 1] != '{'
  {
    var s, at := Placeholder(a) + Placeholder(b)[k..], |a| + 4;
    if i < at {
      BracesOf(a, i);
      BracesOf(a, 2);
      assert s[i] == Placeholder(a)[i] && s[2] == Placeholder(a)[2];
    } else {
      BracesOf(b, k + (i + 1 - at));
      assert s[i + 1] == Placeholder(b)[k..][i + 1 - at];
    }
  }

  /** Without a first piece the template is well-braced. */
  lemma GapIsWellBraced(a: string, b: string, k: nat)
    requires IsWord(a) && IsWord(b) && 1 <= k <= |b| + 4
    ensures WellBraced(Gap(a, b, 0, k))
  {
    var s := Gap(a, b, 0, k);
    assert s == Placeholder(a) + Placeholder(b)[k..];
    PlaceholderMatches(a, Placeholder(b)[k..]);
    assert s[0..] == s;
    forall i | 1 <= i < |s| - 1 ensures s[i] != '{' || s[i + 1] != '{' {
      OnePairOnly(a, b, k, i);
    }
  }

  /** An occurrence of the text is exchanged for something else, so the result is not what it was. */
  lemma {:induction false} ScanChanges(s: string, t: string, with: string, i: nat)
    requires t != "" && with != t && i < |s| && t <= s[i..]
    ensures Scan(s, t, with) != s
    decreases |s|
  {
    if t <= s {
      PrefixSplits(t, s);
      ScanHere(t, s[|t|..], with);
      ScanLength(s[|t|..], t, with);
      if with + Scan(s[|t|..], t, with) == s {
        SameStart(with, Scan(s[|t|..], t, with), t, s[|t|..]);
      }
    } else {
      assert s[0..] == s;
      assert s[1..][i - 1..] == s[i..];
      ScanChanges(s[1..], t, with, i - 1);
      assert ([s[0]] + Scan(s[1..], t, with))[1..] == Scan(s[1..], t, with);
    }
  }

  lemma SameStart(x: string, y: string, t: string, u: string)
    requires x + y == t + u && |x| == |t|
    ensures x == t
  {
    assert (x + y)[..|x|] == x && (t + u)[..|t|] == t;
  }

  lemma {:induction false} ScanLength(s: string, t: string, with: string)
    requires t != ""
    ensures |with| >= |t| ==> |Scan(s, t, with)| >= |s|
    ensures |with| <= |t| ==> |Scan(s, t, with)| <= |s|
    decreases |s|
  {
    if s != "" {
      if t <= s {
        ScanLength(s[|t|..], t, with);
      } else {
        ScanLength(s[1..], t, with);
      }
    }
  }

  /** Keys other than a find nothing in the template. */
  lemma {:induction false} OthersPass(a: string, b: string, m: nat, k: nat, payload: Payload, others: seq<string>)
    requires IsWord(a) && IsWord(b) && m < |b| + 4 && 1 <= k <= |b| + 4 && AllWords(payload)
    requires a !in others && forall o :: o in others ==> o in payload
    ensures ResolveInTurn(Gap(a, b, m, k), payload, others) == Gap(a, b, m, k)
    decreases |others|
  {
    if others != [] {
      var o := others[|others| - 1];
      assert o in others && others == Front(others) + [o];
      OthersPass(a, b, m, k, payload, Front(others));
      ReplaceIsScan(Gap(a, b, m, k), Placeholder(o), payload[o]);
      OneKeyAgrees(Gap(a, b, m, k), o, payload[o]);
      GapResolves(a, b, m, k, map[o := payload[o]]);
    }
  }

  /** Key a and then key b, after all others: b is found in what a has completed. */
  lemma GapIsClosed(a: string, b: string, m: nat, k: nat, i: nat, payload: Payload, others: seq<string>)
    requires m < |b| + 4 && 1 <= k <= |b| + 4 && AllWords(payload) && a != b
    requires a in payload && Active(payload, b) && a !in others && forall o :: o in others ==> o in payload
    requires
      var closed := Placeholder(b)[..m] + (payload[a] + Placeholder(b)[k..]);
      i < |closed| && Placeholder(b) <= closed[i..]
    ensures ResolveTemplate(Gap(a, b, m, k), payload) == Placeholder(b)[..m] + (payload[a] + Placeholder(b)[k..])
    ensures ResolveInTurn(Gap(a, b, m, k), payload, others + [a, b]) != ResolveTemplate(Gap(a, b, m, k), payload)
  {
    var s, closed := Gap(a, b, m, k), Placeholder(b)[..m] + (payload[a] + Placeholder(b)[k..]);
    GapResolves(a, b, m, k, payload);
    OthersPass(a, b, m, k, payload, others);
    TwoMore(s, payload, others, a, b);
    ReplaceIsScan(s, Placeholder(a), payload[a]);
    OneKeyAgrees(s, a, payload[a]);
    GapResolves(a, b, m, k, map[a := payload[a]]);
    ReplaceIsScan(closed, Placeholder(b), payload[b]);
    ScanChanges(closed, Placeholder(b), payload[b], i);
  }

  lemma TwoMore(s: string, payload: Payload, others: seq<string>, a: string, b: string)
    requires a in payload && b in payload && forall o :: o in others ==> o in payload
    ensures ResolveInTurn(s, payload, others + [a, b]) ==
            Replace(Replace(ResolveInTurn(s, payload, others), Placeholder(a), payload[a], -1),
                    Placeholder(b), payload[b], -1)
  {
    assert Front(others + [a, b]) == others + [a] && Front(others + [a]) == others;
  }

  lemma {:induction false} SomeOrder(keys: set<string>) returns (order: seq<string>)
    ensures forall k :: k in order <==> k in keys
    ensures forall i, j :: 0 <= i < j < |order| ==> order[i] != order[j]
    decreases |keys|
  {
    order := [];
    if keys != {} {
      var k :| k in keys;
      var rest := SomeOrder(keys - {k});
      order := rest + [k];
    }
  }

  lemma OrderEndingIn(payload: Payload, a: string, b: string) returns (others: seq<string>)
    requires a in payload && b in payload && a != b
    ensures Enumerates(others + [a, b], payload) && a !in others
    ensures forall o :: o in others ==> o in payload
  {
    others := SomeOrder(payload.Keys - {a, b});
    var order := others + [a, b];
    forall k ensures k in order <==> k in payload {
      assert k in order <==> k in others || k == a || k == b;
    }
    forall i, j | 0 <= i < j < |order| ensures order[i] != order[j] {
      if j >= |others| && i < |others| {
        assert order[i] == others[i] && others[i] in others;
      }
    }
  }

  /** Where a value can disturb: a template and an order that show it. */
  lemma DisturbedShows(payload: Payload, a: string, b: string, anyText: bool) returns (s: string, order: seq<string>)
    requires AllWords(payload) && a in payload && Active(payload, b) && a != b
    requires Disturbs(payload[a], Placeholder(b), anyText)
    ensures Enumerates(order, payload) && (anyText || WellBraced(s))
    ensures ResolveInTurn(s, payload, order) != ResolveTemplate(s, payload)
  {
    var others := OrderEndingIn(payload, a, b);
    order := others + [a, b];
    var v, t := payload[a], Placeholder(b);
    var m, k, i := GapFor(v, t, anyText);
    s := Gap(a, b, m, k);
    GapIsClosed(a, b, m, k, i, payload, others);
    if m == 0 {
      GapIsWellBraced(a, b, k);
    }
  }

  lemma GapFor(v: string, t: string, anyText: bool) returns (m: nat, k: nat, i: nat)
    requires t != "" && Disturbs(v, t, anyText)
    ensures m < |t| && 1 <= k <= |t| && (anyText || m == 0)
    ensures var closed := t[..m] + (v + t[k..]); i < |closed| && t <= closed[i..]
  {
    if Begins(v, t) {
      m := 0;
      k, i := GapBehind(v, t);
    } else {
      m, k := GapAround(v, t);
      i := 0;
      assert (t[..m] + (v + t[k..]))[0..] == t[..m] + (v + t[k..]);
    }
  }

  lemma GapBehind(v: string, t: string) returns (k: nat, i: nat)
    requires t != "" && Begins(v, t)
    ensures 1 <= k <= |t|
    ensures var closed := t[..0] + (v + t[k..]); i < |closed| && t <= closed[i..]
  {
    i :| 0 <= i < |v| && (t <= v[i..] || v[i..] <= t);
    if t <= v[i..] {
      k := |t|;
      assert t[..0] + (v + t[k..]) == v;
    } else {
      k := |v| - i;
      PrefixSplits(v[i..], t);
      assert (t[..0] + (v + t[k..]))[i..] == v[i..] + t[k..];
    }
  }

  lemma GapAround(v: string, t: string) returns (m: nat, k: nat)
    requires GoesOn(v, t)
    ensures 1 <= m < |t| && 1 <= k <= |t| && t <= t[..m] + (v + t[k..])
  {
    m :| 1 <= m < |t| && (t[m..] <= v || v <= t[m..]);
    assert t == t[..m] + t[m..];
    if t[m..] <= v {
      k := |t|;
      PrefixSplits(t[m..], v);
      assert t[..m] + (v + t[k..]) == t + v[|t[m..]|..];
    } else {
      k := m + |v|;
      PrefixSplits(v, t[m..]);
      assert t[m..][|v|..] == t[k..];
    }
  }

  // -------------------------------------------------------------- main results

  /** Whatever the order of the map, the dry run shows what the runtime will produce. */
  ghost predicate Agrees(s: string, payload: Payload) {
    forall order: seq<string> :: Enumerates(order, payload) ==>
      ResolveInTurn(s, payload, order) == ResolveTemplate(s, payload)
  }

  lemma AgreesIf(s: string, payload: Payload, anyText: bool)
    requires AllWords(payload) && Undisturbed(payload, anyText) && (anyText || WellBraced(s))
    ensures Agrees(s, payload)
  {
    forall order: seq<string> | Enumerates(order, payload)
      ensures ResolveInTurn(s, payload, order) == ResolveTemplate(s, payload)
    {
      AllOrdersUndisturbed(payload, order, anyText);
      OrderAgrees(s, payload, order, anyText);
    }
  }

  lemma DisturbedDiffers(payload: Payload, anyText: bool) returns (s: string)
    requires AllWords(payload) && !Undisturbed(payload, anyText)
    ensures (anyText || WellBraced(s)) && !Agrees(s, payload)
  {
    var a, b :| a in payload && Active(payload, b) && a != b && Disturbs(payload[a], Placeholder(b), anyText);
    var order;
    s, order := DisturbedShows(payload, a, b, anyText);
  }

  /** The dry run agrees for every template whose double opening braces begin placeholders,
      exactly when no value holds the placeholder of another key, or ends in a beginning of it,
      unless that key stands for itself. */
  lemma DryRunAgreesIff(payload: Payload)
    requires AllWords(payload)
    ensures (forall s :: WellBraced(s) ==> Agrees(s, payload)) <==>
            forall a, b :: a in payload && Active(payload, b) && a != b ==> !Begins(payload[a], Placeholder(b))
  {
    assert forall v, t :: Disturbs(v, t, false) <==> Begins(v, t);
    if Undisturbed(payload, false) {
      forall s | WellBraced(s) ensures Agrees(s, payload) {
        AgreesIf(s, payload, false);
      }
    } else {
      var s := DisturbedDiffers(payload, false);
    }
  }

  /** And for all templates, whatever braces they hold, exactly when no value can go on with
      such a placeholder either, which the empty value can. */
  lemma DryRunAlwaysAgreesIff(payload: Payload)
    requires AllWords(payload)
    ensures (forall s :: Agrees(s, payload)) <==>
            forall a, b :: a in payload && Active(payload, b) && a != b ==>
                             !Begins(payload[a], Placeholder(b)) && !GoesOn(payload[a], Placeholder(b))
  {
    assert forall v, t :: Disturbs(v, t, true) <==> Begins(v, t) || GoesOn(v, t);
    if Undisturbed(payload, true) {
      forall s ensures Agrees(s, payload) {
        AgreesIf(s, payload, true);
      }
    } else {
      var s := DisturbedDiffers(payload, true);
    }
  }

  /** Values without an opening brace are safe in well-braced templates. */
  lemma DryRunAgrees(s: string, payload: Payload)
    requires WellBraced(s) && AllWords(payload) && forall k :: k in payload ==> NoBrace(payload[k])
    ensures Agrees(s, payload)
  {
    forall a, b | a in payload && Active(payload, b) ensures !Disturbs(payload[a], Placeholder(b), false) {
      PlainBeginsNothing(payload[a], Placeholder(b));
    }
    AgreesIf(s, payload, false);
  }

  lemma PlainBeginsNothing(v: string, t: string)
    requires NoBrace(v) && t != "" && t[0] == '{'
    ensures !Begins(v, t)
  {
    forall i | 0 <= i < |v| ensures !(t <= v[i..]) && !(v[i..] <= t) {
      assert v[i..][0] == v[i];
    }
  }

  // ------------------------------------------------------ keys that are no words

  lemma {:induction false} NoWordNoMatch(s: string, payload: Payload)
    requires forall k :: k in payload ==> !IsWord(k)
    ensures ResolveTemplate(s, payload) == s
    decreases |s|
  {
    if s != "" {
      match MatchHead(s)
      case Some(w) =>
        MatchSplits(s);
        NoWordNoMatch(s[|w| + 4..], payload);
      case None =>
        NoWordNoMatch(s[1..], payload);
        assert s == [s[0]] + s[1..];
    }
  }

  lemma ReplaceWhole(key: string, value: string)
    ensures Replace(Placeholder(key), Placeholder(key), value, -1) == value
  {
    var t := Placeholder(key);
    ReplaceIsScan(t, t, value);
    assert t + "" == t;
    ScanHere(t, "", value);
  }

  /** A key that is no word is replaced by the dry run and never by the runtime. */
  lemma NoWordAgreesIff(key: string, value: string)
    requires !IsWord(key)
    ensures
      (forall s: string :: Replace(s, Placeholder(key), value, -1) == ResolveTemplate(s, map[key := value]))
      <==> value == Placeholder(key)
  {
    var t, payload := Placeholder(key), map[key := value];
    if value == t {
      forall s: string ensures Replace(s, t, value, -1) == ResolveTemplate(s, payload) {
        ReplaceIsScan(s, t, value);
        ScanSame(s, t);
        NoWordNoMatch(s, payload);
      }
    } else {
      ReplaceWhole(key, value);
      NoWordNoMatch(t, payload);
      assert Replace(t, t, value, -1) != ResolveTemplate(t, payload);
    }
  }

  /** Also in a well-braced template: the key a}}{{b is found between the braces of a and b. */
  lemma NoWordBetweenWords(a: string, b: string, value: string)
    requires IsWord(a) && IsWord(b)
    ensures
      var s, key := Placeholder(a) + Placeholder(b), a + (['}', '}'] + (['{', '{'] + b));
      && WellBraced(s) && Placeholder(key) == s
      && ResolveTemplate(s, map[key := value]) == s && ResolveInTurn(s, map[key := value], [key]) == value
  {
    var s, key := Placeholder(a) + Placeholder(b), a + (['}', '}'] + (['{', '{'] + b));
    assert Placeholder(key) == s;
    assert key[|a|] == '}';
    NoWordNoMatch(s, map[key := value]);
    assert Front([key]) == [] && ResolveInTurn(s, map[key := value], []) == s;
    ReplaceWhole(key, value);
    PairIsWellBraced(a, b);
  }

  lemma PairIsWellBraced(a: string, b: string)
    requires IsWord(a) && IsWord(b)
    ensures WellBraced(Placeholder(a) + Placeholder(b))
  {
    var s := Placeholder(a) + Placeholder(b);
    PlaceholderMatches(a, Placeholder(b));
    PlaceholderMatches(b, "");
    assert s[0..] == s && s[|a| + 4..] == Placeholder(b) + "";
    forall i | 1 <= i < |s| - 1 && i != |a| + 4 ensures s[i] != '{' || s[i + 1] != '{' {
      if i < |a| + 4 {
        assert s[i] == Placeholder(a)[i] && s[2] == a[0];
      } else {
        assert s[i] == Placeholder(b)[i - |a| - 4] && s[|a| + 6] == b[0];
      }
    }
  }

  // ------------------------------------------------------------------- examples

  /** A value that holds a placeholder: the runtime leaves it as it is, the dry run resolves it
      or not, depending on which key comes first. */
  lemma NestedValueDependsOnOrder(a: string, b: string, x: string)
    requires IsWord(a) && IsWord(b) && a != b
    ensures
      var payload: Payload := map[a := Placeholder(b), b := x];
      && ResolveTemplate(Placeholder(a), payload) == Placeholder(b)
      && ResolveInTurn(Placeholder(a), payload, [b, a]) == Placeholder(b)
      && ResolveInTurn(Placeholder(a), payload, [a, b]) == x
  {
    var payload: Payload := map[a := Placeholder(b), b := x];
    var s := Placeholder(a);
    assert s + "" == s;
    ResolveMatch(a, "", payload);
    ReplaceWhole(a, Placeholder(b));
    ReplaceWhole(b, x);
    ReplaceIsScan(s, Placeholder(b), x);
    ScanOther(a, "", b, x);
    assert [] + [b, a] == [b, a] && [] + [a, b] == [a, b];
    TwoMore(s, payload, [], a, b);
    TwoMore(s, payload, [], b, a);
  }

  /** Braces that open no placeholder of the template: a value can complete one, which the dry
      run then resolves and the runtime does not. */
  lemma StrayBracesDependOnOrder(a: string, b: string, x: string)
    requires IsWord(a) && IsWord(b) && a != b
    ensures
      var payload: Payload := map[a := x, b := ['}', '}']];
      var s := ['{', '{'] + a + Placeholder(b);
      ResolveTemplate(s, payload) == Placeholder(a) && ResolveInTurn(s, payload, [b, a]) == x
  {
    var payload: Payload := map[a := x, b := ['}', '}']];
    var s := ['{', '{'] + a + Placeholder(b);
    assert s == Gap(b, a, |a| + 2, |a| + 4);
    assert Placeholder(a)[..|a| + 2] + (['}', '}'] + Placeholder(a)[|a| + 4..]) == Placeholder(a);
    GapResolves(b, a, |a| + 2, |a| + 4, payload);
    GapResolves(b, a, |a| + 2, |a| + 4, map[b := ['}', '}']]);
    OneKeyAgrees(s, b, ['}', '}']);
    ReplaceIsScan(s, Placeholder(b), ['}', '}']);
    assert [] + [b, a] == [b, a];
    TwoMore(s, payload, [], b, a);
    ReplaceWhole(a, x);
  }
}
