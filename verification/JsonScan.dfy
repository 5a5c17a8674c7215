/** brain/plan.go: the quote and bracket scanners that prepare LLM output for the
    JSON parser, and the tree of groups, strings and other characters they recognise. */
module JsonScan {
  import opened Text

  /** Scanner state: unclosed openers, inside a string, after a backslash in a string. */
  datatype Scan = Scan(stack: string, inString: bool, escaped: bool)

  const START := Scan("", false, false)

  predicate IsOpener(c: char) { c == '{' || c == '[' }
  predicate IsCloser(c: char) { c == '}' || c == ']' }
  function OpenerOf(c: char): char { if c == '}' then '{' else '[' }
  function CloserOf(c: char): char { if c == '{' then '}' else ']' }

  /** One iteration of `countBracketStack`. A closer that does not fit is skipped. */
  function Step(z: Scan, c: char): Scan {
    if z.escaped then z.(escaped := false)
    else if c == '\\' && z.inString then z.(escaped := true)
    else if c == '"' then z.(inString := !z.inString)
    else if z.inString then z
    else if IsOpener(c) then z.(stack := z.stack + [c])
    else if IsCloser(c) then
      if z.stack != [] && Last(z.stack) == OpenerOf(c) then z.(stack := Front(z.stack)) else z
    else z
  }

  function ScanFrom(z: Scan, s: string): Scan {
    if s == [] then z else Step(ScanFrom(z, Front(s)), Last(s))
  }

  /** The scanner reads c as a bracket rather than as part of a string. */
  predicate Outside(z: Scan) { !z.escaped && !z.inString }

  predicate Fits(z: Scan, c: char) {
    Outside(z) && IsCloser(c) ==> z.stack != [] && Last(z.stack) == OpenerOf(c)
  }

  /** Every closer outside strings closes the innermost open bracket, of its own kind. */
  predicate Matched(z: Scan, s: string) {
    s == [] || (Matched(z, Front(s)) && Fits(ScanFrom(z, Front(s)), Last(s)))
  }

  /** Brackets pair up by kind and nesting, and every string is closed. */
  predicate Balanced(s: string) { Matched(START, s) && ScanFrom(START, s) == START }

  lemma {:induction false} ScanConcat(z: Scan, s: string, t: string)
    ensures ScanFrom(z, s + t) == ScanFrom(ScanFrom(z, s), t)
    ensures Matched(z, s + t) <==> Matched(z, s) && Matched(ScanFrom(z, s), t)
    decreases |t|
  {
    if t == [] {
      assert s + t == s;
    } else {
      assert Front(s + t) == s + Front(t);
      ScanConcat(z, s, Front(t));
    }
  }

  lemma ScanOne(z: Scan, c: char)
    ensures ScanFrom(z, [c]) == Step(z, c)
    ensures Matched(z, [c]) <==> Fits(z, c)
  {
    assert Front([c]) == [];
  }

  /** Splitting off the first character. */
  lemma ScanCons(z: Scan, c: char, s: string)
    ensures ScanFrom(z, [c] + s) == ScanFrom(Step(z, c), s)
    ensures Matched(z, [c] + s) <==> Fits(z, c) && Matched(Step(z, c), s)
  {
    ScanConcat(z, [c], s);
    ScanOne(z, c);
  }

  predicate Sane(z: Scan) {
    && (z.escaped ==> z.inString)
    && forall i :: 0 <= i < |z.stack| ==> IsOpener(z.stack[i])
  }

  lemma {:induction false} ScanSane(z: Scan, s: string)
    requires Sane(z)
    ensures Sane(ScanFrom(z, s))
    decreases |s|
  {
    if s != [] {
      ScanSane(z, Front(s));
    }
  }

  // --------------------------------------------------------------- the methods

  method CountBracketStack(s: string) returns (stack: string, inString: bool)
    ensures stack == ScanFrom(START, s).stack && inString == ScanFrom(START, s).inString
  {
    stack, inString := "", false;
    var escaped := false;
    for i := 0 to |s|
      invariant ScanFrom(START, s[..i]) == Scan(stack, inString, escaped)
    {
      var c := s[i];
      assert Front(s[..i + 1]) == s[..i] && Last(s[..i + 1]) == c;
      if escaped {
        escaped := false;
        continue;
      }
      if c == '\\' && inString {
        escaped := true;
        continue;
      }
      if c == '"' {
        inString := !inString;
        continue;
      }
      if inString {
        continue;
      }
      if c == '{' || c == '[' {
        stack := stack + [c];
      } else if c == '}' {
        if |stack| > 0 && stack[|stack| - 1] == '{' {
          stack := stack[..|stack| - 1];
        }
      } else if c == ']' {
        if |stack| > 0 && stack[|stack| - 1] == '[' {
          stack := stack[..|stack| - 1];
        }
      }
    }
    assert s[..|s|] == s;
  }

  /** Openers minus closers outside strings: the counter of `findJSONEnd`, which does not
      distinguish braces from brackets and may go negative. */
  function Depth(s: string): int {
    if s == [] then 0
    else
      var z := ScanFrom(START, Front(s));
      Depth(Front(s)) +
      if !Outside(z) then 0 else if IsOpener(Last(s)) then 1 else if IsCloser(Last(s)) then -1 else 0
  }

  /** The character at i is a closer outside strings that brings the counter back to zero. */
  predicate ClosesAt(s: string, i: nat)
    requires i < |s|
  {
    Outside(ScanFrom(START, s[..i])) && IsCloser(s[i]) && Depth(s[..i + 1]) == 0
  }

  method FindJSONEnd(s: string) returns (end: int)
    ensures end == -1 || 1 <= end <= |s|
    ensures end == -1 ==> forall i: nat :: i < |s| ==> !ClosesAt(s, i)
    ensures end > 0 ==> ClosesAt(s, end - 1) && forall i: nat :: i < end - 1 ==> !ClosesAt(s, i)
  {
    var depth, inString, escaped := 0, false, false;
    for i := 0 to |s|
      invariant Depth(s[..i]) == depth
      invariant ScanFrom(START, s[..i]).inString == inString && ScanFrom(START, s[..i]).escaped == escaped
      invariant forall k: nat :: k < i ==> !ClosesAt(s, k)
    {
      var c := s[i];
      assert Front(s[..i + 1]) == s[..i] && Last(s[..i + 1]) == c;
      if escaped {
        escaped := false;
        continue;
      }
      if c == '\\' && inString {
        escaped := true;
        continue;
      }
      if c == '"' {
        inString := !inString;
        continue;
      }
      if inString {
        continue;
      }
      if c == '{' || c == '[' {
        depth := depth + 1;
      } else if c == '}' || c == ']' {
        depth := depth - 1;
        if depth == 0 {
          return i + 1;
        }
      }
    }
    return -1;
  }

  /** The counter is never above the height of the stack... */
  lemma {:induction false} DepthBelowHeight(s: string)
    ensures Depth(s) <= |ScanFrom(START, s).stack|
    decreases |s|
  {
    if s != [] {
      DepthBelowHeight(Front(s));
    }
  }

  /** ...and equals it at the end of a text exactly when no closer was mismatched. */
  lemma {:induction false} DepthIsHeight(s: string)
    ensures Matched(START, s) <==> Depth(s) == |ScanFrom(START, s).stack|
    decreases |s|
  {
    if s != [] {
      DepthIsHeight(Front(s));
      DepthBelowHeight(Front(s));
    }
  }

  lemma {:induction false} MatchedPrefix(z: Scan, s: string, k: nat)
    requires k <= |s| && Matched(z, s)
    ensures Matched(z, s[..k])
  {
    assert s == s[..k] + s[k..];
    ScanConcat(z, s[..k], s[k..]);
  }

  /** With no mismatched closer, `findJSONEnd` stops exactly where the stack first empties. */
  lemma EndIsWhereStackEmpties(s: string, i: nat)
    requires i < |s| && Matched(START, s)
    ensures ClosesAt(s, i) <==>
            && Outside(ScanFrom(START, s[..i])) && IsCloser(s[i])
            && ScanFrom(START, s[..i + 1]).stack == []
  {
    MatchedPrefix(START, s, i + 1);
    DepthIsHeight(s[..i + 1]);
  }

  /** What is cut off at such an end is a balanced text. */
  lemma CutAtEndIsBalanced(s: string, i: nat)
    requires i < |s| && Matched(START, s) && ClosesAt(s, i)
    ensures Balanced(s[..i + 1])
  {
    EndIsWhereStackEmpties(s, i);
    MatchedPrefix(START, s, i + 1);
    assert Front(s[..i + 1]) == s[..i];
  }

  /** With a mismatched closer it may stop at text the stack considers open. */
  lemma MismatchEndsEarly()
    ensures ClosesAt("{]", 1) && ScanFrom(START, "{]").stack == "{"
  {
    assert Front("{]") == "{" && Front("{") == "";
    assert "{]"[..1] == "{" && "{]"[..2] == "{]";
    assert ScanFrom(START, "{") == Scan("{", false, false);
    assert Depth("{") == 1;
  }

  // ------------------------------------------------------------ documents as trees

  /** A text seen as a tree: plain characters, strings, and groups in matching brackets. */
  datatype Items =
    | End
    | Plain(c: char, rest: Items)
    | Quoted(body: string, rest: Items)
    | Group(open: char, inner: Items, rest: Items)

  function Render(items: Items): string {
    match items
    case End => ""
    case Plain(c, rest) => [c] + Render(rest)
    case Quoted(body, rest) => ['"'] + (body + (['"'] + Render(rest)))
    case Group(open, inner, rest) => [open] + (Render(inner) + ([CloserOf(open)] + Render(rest)))
  }

  /** body can stand between quotes: none of its quotes is bare and no escape is left open. */
  predicate ProperBody(body: string) {
    if body == [] then true
    else if body[0] == '\\' then |body| >= 2 && ProperBody(body[2..])
    else body[0] != '"' && ProperBody(body[1..])
  }

  predicate Proper(items: Items) {
    match items
    case End => true
    case Plain(c, rest) => c != '"' && !IsOpener(c) && !IsCloser(c) && Proper(rest)
    case Quoted(body, rest) => ProperBody(body) && Proper(rest)
    case Group(open, inner, rest) => IsOpener(open) && Proper(inner) && Proper(rest)
  }

  lemma {:induction false} BodyScans(z: Scan, body: string)
    requires z.inString && !z.escaped && ProperBody(body)
    ensures ScanFrom(z, body) == z && Matched(z, body)
    decreases |body|
  {
    if body != [] {
      if body[0] == '\\' {
        BodyScans(z, body[2..]);
        assert body == [body[0]] + ([body[1]] + body[2..]);
        ScanCons(z, body[0], [body[1]] + body[2..]);
        ScanCons(z.(escaped := true), body[1], body[2..]);
      } else {
        BodyScans(z, body[1..]);
        assert body == [body[0]] + body[1..];
        ScanCons(z, body[0], body[1..]);
      }
    }
  }

  lemma CloserScans(z: Scan, y: Scan, open: char, rest: string)
    requires Outside(z) && IsOpener(open) && y == z.(stack := z.stack + [open])
    ensures ScanFrom(y, [CloserOf(open)] + rest) == ScanFrom(z, rest)
    ensures Matched(y, [CloserOf(open)] + rest) <==> Matched(z, rest)
  {
    assert Front(y.stack) == z.stack;
    ScanCons(y, CloserOf(open), rest);
  }

  lemma OpenerScans(z: Scan, y: Scan, open: char, rest: string)
    requires Outside(z) && IsOpener(open) && y == z.(stack := z.stack + [open])
    ensures ScanFrom(z, [open] + rest) == ScanFrom(y, rest)
    ensures Matched(z, [open] + rest) <==> Matched(y, rest)
  {
    ScanCons(z, open, rest);
  }

  /** A group whose inside leaves the scan where it was does so itself. */
  lemma GroupScans(z: Scan, y: Scan, open: char, inner: string, rest: string)
    requires Outside(z) && IsOpener(open) && y == z.(stack := z.stack + [open])
    requires ScanFrom(y, inner) == y && Matched(y, inner)
    ensures ScanFrom(z, [open] + (inner + ([CloserOf(open)] + rest))) == ScanFrom(z, rest)
    ensures Matched(z, [open] + (inner + ([CloserOf(open)] + rest))) <==> Matched(z, rest)
  {
    var tail := [CloserOf(open)] + rest;
    OpenerScans(z, y, open, inner + tail);
    ScanConcat(y, inner, tail);
    CloserScans(z, y, open, rest);
  }

  lemma QuotedScans(z: Scan, body: string, rest: string)
    requires Outside(z) && ProperBody(body)
    ensures ScanFrom(z, ['"'] + (body + (['"'] + rest))) == ScanFrom(z, rest)
    ensures Matched(z, ['"'] + (body + (['"'] + rest))) <==> Matched(z, rest)
  {
    var y := z.(inString := true);
    ScanCons(z, '"', body + (['"'] + rest));
    BodyScans(y, body);
    ScanConcat(y, body, ['"'] + rest);
    ScanCons(y, '"', rest);
  }

  lemma {:induction false} RenderScans(z: Scan, items: Items)
    requires Outside(z) && Proper(items)
    ensures ScanFrom(z, Render(items)) == z && Matched(z, Render(items))
    decreases items
  {
    match items {
      case End =>
      case Plain(c, rest) =>
        RenderScans(z, rest);
        ScanCons(z, c, Render(rest));
      case Quoted(body, rest) =>
        RenderScans(z, rest);
        QuotedScans(z, body, Render(rest));
      case Group(open, inner, rest) =>
        RenderScans(z, rest);
        var y := z.(stack := z.stack + [open]);
        RenderScans(y, inner);
        GroupScans(z, y, open, Render(inner), Render(rest));
    }
  }

  /** The trees still being read, one for each open bracket and one for the top level. */
  datatype Levels = Bottom(items: Items) | Level(items: Items, outer: Levels)

  /** The text from the current position to the end, given the brackets open there. */
  function RenderLevels(levels: Levels, stack: string): string {
    if levels.Bottom? || stack == [] then Render(levels.items)
    else Render(levels.items) + ([CloserOf(Last(stack))] + RenderLevels(levels.outer, Front(stack)))
  }

  predicate ProperLevels(levels: Levels, stack: string) {
    && Proper(levels.items)
    && (levels.Bottom? <==> stack == [])
    && (levels.Level? ==> stack != [] && ProperLevels(levels.outer, Front(stack)))
  }

  lemma Assoc(a: string, b: string, c: string)
    ensures a + (b + c) == (a + b) + c
  {}

  /** Adding text that extends the innermost tree. */
  lemma PrependLevels(levels: Levels, items: Items, stack: string, lead: string)
    requires Render(items) == lead + Render(levels.items)
    ensures RenderLevels(levels.(items := items), stack) == lead + RenderLevels(levels, stack)
  {
    if levels.Level? && stack != [] {
      Assoc(lead, Render(levels.items), [CloserOf(Last(stack))] + RenderLevels(levels.outer, Front(stack)));
    }
  }

  lemma HeadTail(s: string)
    requires s != []
    ensures s == [s[0]] + s[1..]
  {}

  lemma ScanHead(z: Scan, s: string)
    requires s != []
    ensures ScanFrom(z, s) == ScanFrom(Step(z, s[0]), s[1..])
    ensures Matched(z, s) <==> Fits(z, s[0]) && Matched(Step(z, s[0]), s[1..])
  {
    HeadTail(s);
    ScanCons(z, s[0], s[1..]);
  }

  lemma ExtendBody(lead: string, body: string, rest: string, s: string)
    requires s == lead + (body + (['"'] + rest))
    requires ProperBody(body)
    requires (|lead| == 1 && lead[0] != '"' && lead[0] != '\\') || (|lead| == 2 && lead[0] == '\\')
    ensures s == (lead + body) + (['"'] + rest) && ProperBody(lead + body)
  {
    Assoc(lead, body, ['"'] + rest);
    assert (lead + body)[|lead|..] == body;
  }

  lemma {:induction false} ParseBody(z: Scan, s: string) returns (body: string, rest: string)
    requires z.inString && !z.escaped && ScanFrom(z, s) == START && Matched(z, s)
    ensures s == body + (['"'] + rest) && ProperBody(body)
    ensures ScanFrom(z.(inString := false), rest) == START && Matched(z.(inString := false), rest)
    decreases |s|
  {
    HeadTail(s);
    ScanHead(z, s);
    if s[0] == '"' {
      body, rest := "", s[1..];
    } else if s[0] == '\\' {
      ScanHead(z.(escaped := true), s[1..]);
      body, rest := ParseBody(z, s[1..][1..]);
      HeadTail(s[1..]);
      Assoc([s[0]], [s[1]], s[1..][1..]);
      ExtendBody([s[0]] + [s[1]], body, rest, s);
      body := [s[0]] + [s[1]] + body;
    } else {
      body, rest := ParseBody(z, s[1..]);
      ExtendBody([s[0]], body, rest, s);
      body := [s[0]] + body;
    }
  }

  lemma {:induction false} ParseLevels(stack: string, s: string) returns (levels: Levels)
    requires Sane(Scan(stack, false, false))
    requires ScanFrom(Scan(stack, false, false), s) == START && Matched(Scan(stack, false, false), s)
    ensures ProperLevels(levels, stack) && s == RenderLevels(levels, stack)
    decreases |s|
  {
    var z := Scan(stack, false, false);
    if s == [] {
      levels := Bottom(End);
    } else {
      var c, tail := s[0], s[1..];
      HeadTail(s);
      ScanHead(z, s);
      if c == '"' {
        levels := ParseString(stack, s);
      } else if IsOpener(c) {
        levels := ParseGroup(stack, s);
      } else if IsCloser(c) {
        var below := ParseLevels(Front(stack), tail);
        levels := Level(End, below);
        assert CloserOf(Last(stack)) == c;
      } else {
        var below := ParseLevels(stack, tail);
        levels := below.(items := Plain(c, below.items));
        PrependLevels(below, Plain(c, below.items), stack, [c]);
      }
    }
  }

  lemma {:induction false} ParseString(stack: string, s: string) returns (levels: Levels)
    requires Sane(Scan(stack, false, false)) && s != [] && s[0] == '"'
    requires ScanFrom(Scan(stack, false, false), s) == START && Matched(Scan(stack, false, false), s)
    ensures ProperLevels(levels, stack) && s == RenderLevels(levels, stack)
    decreases |s|, 0
  {
    var z := Scan(stack, false, false);
    HeadTail(s);
    ScanHead(z, s);
    var body, rest := ParseBody(z.(inString := true), s[1..]);
    var below := ParseLevels(stack, rest);
    var items := Quoted(body, below.items);
    levels := below.(items := items);
    var lead := ['"'] + (body + ['"']);
    Assoc(body, ['"'], rest);
    Assoc(['"'], body + ['"'], rest);
    Assoc(body, ['"'], Render(below.items));
    Assoc(['"'], body + ['"'], Render(below.items));
    PrependLevels(below, items, stack, lead);
  }

  lemma {:induction false} ParseGroup(stack: string, s: string) returns (levels: Levels)
    requires Sane(Scan(stack, false, false)) && s != [] && IsOpener(s[0])
    requires ScanFrom(Scan(stack, false, false), s) == START && Matched(Scan(stack, false, false), s)
    ensures ProperLevels(levels, stack) && s == RenderLevels(levels, stack)
    decreases |s|, 0
  {
    var c := s[0];
    HeadTail(s);
    ScanHead(Scan(stack, false, false), s);
    var below := ParseLevels(stack + [c], s[1..]);
    assert Front(stack + [c]) == stack && Last(stack + [c]) == c;
    var inner, outer := below.items, below.outer;
    var items := Group(c, inner, outer.items);
    levels := outer.(items := items);
    var close := [CloserOf(c)];
    var lead := [c] + (Render(inner) + close);
    assert s[1..] == Render(inner) + (close + RenderLevels(outer, stack));
    Assoc(Render(inner), close, RenderLevels(outer, stack));
    Assoc([c], Render(inner) + close, RenderLevels(outer, stack));
    Assoc(Render(inner), close, Render(outer.items));
    Assoc([c], Render(inner) + close, Render(outer.items));
    PrependLevels(outer, items, stack, lead);
  }

  predicate IsTree(items: Items, s: string) { Proper(items) && Render(items) == s }

  /** Balanced, as the scanner decides it, means being the text of a properly nested tree. */
  lemma BalancedIffTree(s: string)
    ensures Balanced(s) <==> exists items :: IsTree(items, s)
  {
    if Balanced(s) {
      var levels := ParseLevels("", s);
      assert IsTree(levels.items, s);
    }
    forall items | IsTree(items, s) ensures Balanced(s) {
      RenderScans(START, items);
    }
  }
}
