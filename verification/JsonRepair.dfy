/** brain/plan.go: closing a JSON text that the model's output limit cut off. */
module JsonRepair {
  import opened Text
  import opened JsonScan

  predicate Blank(c: char) { c in ASCII_BLANKS }
  predicate BlankOrComma(c: char) { Blank(c) || c == ',' }
  predicate BlankCommaColon(c: char) { Blank(c) || c == ',' || c == ':' }

  predicate StartsWithBracket(s: string) { s != [] && IsOpener(s[0]) }

  /** The closers for a stack of openers, innermost first. */
  function Closers(stack: string): string {
    if stack == [] then "" else [CloserOf(Last(stack))] + Closers(Front(stack))
  }

  /** The text up to the last quote, without the blanks before it. */
  function BeforeLastQuote(t: string): string {
    var q := LastIndex(t, '"');
    TrimRight(if q > 0 then t[..q] else t, Blank)
  }

  /** A key left without its value: u ends in a colon that follows a quote. */
  predicate DanglingKey(u: string) {
    u != [] && Last(u) == ':' &&
    var v := TrimRight(Front(u), Blank);
    v != [] && Last(v) == '"'
  }

  /** The key up to its closing quote, which is left out. */
  function KeyText(u: string): string
    requires DanglingKey(u)
  {
    Front(TrimRight(Front(u), Blank))
  }

  /** u without its trailing colon and the key before it, if it ends like that. */
  function WithoutDanglingKey(u: string): string {
    if DanglingKey(u) then
      var p := LastIndex(KeyText(u), '"');
      if p >= 0 then u[..p] else TrimRight(Front(u), Blank)
    else if u != [] && Last(u) == ':' then TrimRight(Front(u), Blank)
    else u
  }

  /** The cut for a text that ends inside a string. */
  function CutOpenString(t: string): string {
    if LastIndex(t, '"') <= 0 then t
    else TrimRight(WithoutDanglingKey(BeforeLastQuote(t)), BlankOrComma)
  }

  /** What is kept of a trimmed text that has open brackets. */
  function Kept(t: string): string {
    if ScanFrom(START, t).inString then CutOpenString(t) else TrimRight(t, BlankCommaColon)
  }

  /** Nothing to repair: no bracket to start with, or none left open. */
  predicate Settled(t: string) { !StartsWithBracket(t) || ScanFrom(START, t).stack == [] }

  function RepairedTrimmed(t: string): string {
    if Settled(t) then t else Kept(t) + Closers(ScanFrom(START, Kept(t)).stack)
  }

  function Repaired(s: string): string { RepairedTrimmed(TrimSpace(s)) }

  method CutInsideString(input: string) returns (s: string)
    ensures s == CutOpenString(input)
  {
    s := input;
    var lastQuote := LastIndex(s, '"');
    if lastQuote > 0 {
      s := s[..lastQuote];
      s := TrimRight(s, Blank);
      s := RemoveDanglingKey(s);
      s := TrimRight(s, BlankOrComma);
    }
  }

  method RemoveDanglingKey(input: string) returns (s: string)
    ensures s == WithoutDanglingKey(input)
  {
    s := input;
    if |s| > 0 && s[|s| - 1] == ':' {
      s := s[..|s| - 1];
      s := TrimRight(s, Blank);
      if |s| > 0 && s[|s| - 1] == '"' {
        var prevQuote := LastIndex(s[..|s| - 1], '"');
        if prevQuote >= 0 {
          s := s[..prevQuote];
        }
      }
    }
  }

  method CloseOpen(input: string, stack: string) returns (s: string)
    ensures s == input + Closers(stack)
  {
    s := input;
    var i := |stack| - 1;
    assert stack[..i + 1] == stack;
    while i >= 0
      invariant -1 <= i < |stack|
      invariant s + Closers(stack[..i + 1]) == input + Closers(stack)
    {
      assert Front(stack[..i + 1]) == stack[..i];
      Assoc(s, [CloserOf(stack[i])], Closers(stack[..i]));
      if stack[i] == '{' {
        s := s + "}";
      } else {
        s := s + "]";
      }
      i := i - 1;
    }
    assert s + "" == s;
  }

  method RepairTruncatedJSON(input: string) returns (s: string)
    ensures s == Repaired(input)
  {
    s := TrimSpace(input);
    ghost var t := s;
    RepairedIs(input, t);
    if |s| == 0 || (s[0] != '{' && s[0] != '[') {
      return;
    }
    var stack, inString := CountBracketStack(s);
    if |stack| == 0 {
      return;
    }
    if inString {
      s := CutInsideString(s);
    } else {
      s := TrimRight(s, BlankCommaColon);
    }
    stack, inString := CountBracketStack(s);
    s := CloseOpen(s, stack);
  }

  /** The two outcomes of the early returns and of the cut. */
  lemma RepairedIs(input: string, t: string)
    ensures t == TrimSpace(input) ==> Repaired(input) == RepairedTrimmed(t)
    ensures Settled(t) ==> RepairedTrimmed(t) == t
    ensures !Settled(t) ==> RepairedTrimmed(t) == Kept(t) + Closers(ScanFrom(START, Kept(t)).stack)
  {}

  // ------------------------------------------------------ effect of the cuts

  /** Characters that neither bracket nor quote, so that outside a string they change nothing. */
  predicate Inert(c: char) { Blank(c) || c == ',' || c == ':' }

  /** From a point outside strings, dropping inert characters at the end is invisible to the scanner. */
  lemma {:induction false} TrimIsInvisible(t: string, cut: char -> bool)
    requires Outside(ScanFrom(START, t)) && forall c :: cut(c) ==> Inert(c)
    ensures ScanFrom(START, TrimRight(t, cut)) == ScanFrom(START, t)
    ensures Matched(START, TrimRight(t, cut)) <==> Matched(START, t)
    decreases |t|
  {
    if t != [] && cut(Last(t)) {
      DropInert(t);
      TrimIsInvisible(Front(t), cut);
    }
  }

  lemma DropInert(t: string)
    requires t != [] && Inert(Last(t)) && Outside(ScanFrom(START, t))
    ensures ScanFrom(START, Front(t)) == ScanFrom(START, t)
    ensures Matched(START, Front(t)) <==> Matched(START, t)
  {
    ScanSane(START, Front(t));
  }

  /** Inside a string with no quote left, nothing closes and nothing can be mismatched. */
  lemma {:induction false} StringTail(z: Scan, s: string)
    requires z.inString && forall i :: 0 <= i < |s| ==> s[i] != '"'
    ensures ScanFrom(z, s).inString && ScanFrom(z, s).stack == z.stack && Matched(z, s)
    decreases |s|
  {
    if s != [] {
      StringTail(z, Front(s));
    }
  }

  /** The quote at i follows a backslash inside a string. */
  predicate EscapedAt(t: string, i: nat)
    requires i < |t|
  {
    ScanFrom(START, t[..i]).escaped
  }

  /** In a text that ends inside a string, the last quote either opened that string or is
      an escaped quote within it. */
  lemma LastQuote(t: string)
    requires ScanFrom(START, t).inString
    ensures
      var q := LastIndex(t, '"');
      q >= 0 &&
      var z := ScanFrom(START, t[..q]);
      && z.stack == ScanFrom(START, t).stack
      && (Matched(START, t[..q]) <==> Matched(START, t))
      && (EscapedAt(t, q) ==> z.inString && q > 0 && t[q - 1] == '\\')
      && (!EscapedAt(t, q) ==> Outside(z))
  {
    var q := LastIndex(t, '"');
    if q < 0 {
      NoQuoteNoString(t);
    } else {
      var z := ScanFrom(START, t[..q]);
      ScanSane(START, t[..q]);
      assert t == t[..q] + ([t[q]] + t[q + 1..]);
      ScanConcat(START, t[..q], [t[q]] + t[q + 1..]);
      ScanCons(z, '"', t[q + 1..]);
      if z.escaped {
        EscapedAfterBackslash(t[..q]);
      }
      if Step(z, '"').inString {
        StringTail(Step(z, '"'), t[q + 1..]);
      } else {
        NoQuoteStaysOut(Step(z, '"'), t[q + 1..]);
      }
    }
  }

  lemma EscapedAfterBackslash(s: string)
    requires ScanFrom(START, s).escaped
    ensures s != [] && Last(s) == '\\'
  {}

  lemma {:induction false} NoQuoteStaysOut(z: Scan, s: string)
    requires Outside(z) && forall i :: 0 <= i < |s| ==> s[i] != '"'
    ensures Outside(ScanFrom(z, s))
    decreases |s|
  {
    if s != [] {
      NoQuoteStaysOut(z, Front(s));
    }
  }

  lemma NoQuoteNoString(s: string)
    requires LastIndex(s, '"') < 0
    ensures !ScanFrom(START, s).inString
  {
    NoQuoteStaysOut(START, s);
  }

  /** A cut of the open-string repair falls on an escaped quote: one inside the string the
      text breaks off in, or, once that string is gone, one inside the key it was the value of. */
  predicate CutsAtEscapedQuote(t: string)
    requires ScanFrom(START, t).inString
  {
    var q := LastIndex(t, '"');
    q >= 0 && (EscapedAt(t, q) || KeyQuoteEscaped(BeforeLastQuote(t)))
  }

  /** The quote taken for the start of a dangling key is an escaped one. */
  predicate KeyQuoteEscaped(u: string) {
    DanglingKey(u) &&
    var p := LastIndex(KeyText(u), '"');
    p >= 0 && EscapedAt(KeyText(u), p)
  }

  /** Cutting at an escaped quote leaves the text inside the string, right after a backslash. */
  predicate LeftInString(u: string) {
    && ScanFrom(START, u).inString && ScanFrom(START, u).escaped
  }

  lemma BackslashStops(u: string, cut: char -> bool)
    requires u != [] && Last(u) == '\\' && !cut('\\')
    ensures TrimRight(u, cut) == u
  {}

  /** The dangling key of a text outside strings, and the quote that opened it. */
  lemma KeyCut(u: string)
    requires DanglingKey(u) && Outside(ScanFrom(START, u))
    ensures
      var k := KeyText(u);
      var p := LastIndex(k, '"');
      && k <= u
      && ScanFrom(START, k).inString
      && ScanFrom(START, k).stack == ScanFrom(START, u).stack
      && (Matched(START, k) <==> Matched(START, u))
      && p >= 0 && k[..p] == u[..p]
  {
    DropInert(u);
    TrimIsInvisible(Front(u), Blank);
    var v := TrimRight(Front(u), Blank);
    ScanSane(START, Front(v));
    LastQuote(Front(v));
  }

  lemma ColonCut(u: string)
    requires u != [] && Last(u) == ':' && Outside(ScanFrom(START, u))
    ensures ScanFrom(START, TrimRight(Front(u), Blank)) == ScanFrom(START, u)
    ensures Matched(START, TrimRight(Front(u), Blank)) <==> Matched(START, u)
  {
    DropInert(u);
    TrimIsInvisible(Front(u), Blank);
  }

  /** Where a cut leaves the scanner: the brackets and mismatches of t are still there, and
      it stands outside strings unless it fell on an escaped quote. */
  ghost predicate CutLeaves(t: string, u: string, escaped: bool) {
    && ScanFrom(START, u).stack == ScanFrom(START, t).stack
    && (Matched(START, u) <==> Matched(START, t))
    && if escaped then LeftInString(u) && u != [] && Last(u) == '\\' else Outside(ScanFrom(START, u))
  }

  /** The second cut, once the open string is gone. */
  lemma DanglingKeyCut(t: string, u: string)
    requires CutLeaves(t, u, false) && DanglingKey(u)
    ensures
      var k := KeyText(u);
      var p := LastIndex(k, '"');
      p >= 0 && CutLeaves(t, TrimRight(u[..p], BlankOrComma), EscapedAt(k, p))
  {
    KeyCut(u);
    var k := KeyText(u);
    LastQuote(k);
    var p := LastIndex(k, '"');
    if EscapedAt(k, p) {
      BackslashStops(k[..p], BlankOrComma);
    } else {
      TrimIsInvisible(k[..p], BlankOrComma);
    }
  }

  /** What follows once the open string is gone. */
  lemma AfterStringCut(t: string, u: string)
    requires CutLeaves(t, u, false)
    ensures CutLeaves(t, TrimRight(WithoutDanglingKey(u), BlankOrComma), KeyQuoteEscaped(u))
  {
    if DanglingKey(u) {
      DanglingKeyCut(t, u);
    } else if u != [] && Last(u) == ':' {
      ColonCut(u);
      TrimIsInvisible(TrimRight(Front(u), Blank), BlankOrComma);
    } else {
      TrimIsInvisible(u, BlankOrComma);
    }
  }

  /** A cut right after a backslash is the only one. */
  lemma CutAtBackslash(t: string)
    requires LastIndex(t, '"') > 0 && t[LastIndex(t, '"') - 1] == '\\'
    ensures CutOpenString(t) == t[..LastIndex(t, '"')]
  {
    var cut := t[..LastIndex(t, '"')];
    BackslashStops(cut, Blank);
    BackslashStops(cut, BlankOrComma);
  }

  lemma OpenStringCut(t: string)
    requires StartsWithBracket(t) && ScanFrom(START, t).inString
    ensures CutLeaves(t, CutOpenString(t), CutsAtEscapedQuote(t))
  {
    var q := LastIndex(t, '"');
    LastQuote(t);
    if EscapedAt(t, q) {
      CutAtBackslash(t);
    } else {
      TrimIsInvisible(t[..q], Blank);
      AfterStringCut(t, BeforeLastQuote(t));
    }
  }

  lemma KeptCut(t: string)
    requires StartsWithBracket(t)
    ensures CutLeaves(t, Kept(t), ScanFrom(START, t).inString && CutsAtEscapedQuote(t))
  {
    ScanSane(START, t);
    if ScanFrom(START, t).inString {
      OpenStringCut(t);
    } else {
      TrimIsInvisible(t, BlankCommaColon);
    }
  }

  lemma {:induction false} ClosersClose(stack: string)
    requires Sane(Scan(stack, false, false))
    ensures ScanFrom(Scan(stack, false, false), Closers(stack)) == START
    ensures Matched(Scan(stack, false, false), Closers(stack))
    decreases |stack|
  {
    if stack != [] {
      ClosersClose(Front(stack));
      ScanCons(Scan(stack, false, false), CloserOf(Last(stack)), Closers(Front(stack)));
    }
  }

  lemma {:induction false} ClosersAreClosers(stack: string)
    requires Sane(Scan(stack, false, false))
    ensures |Closers(stack)| == |stack|
    ensures forall i :: 0 <= i < |stack| ==> IsCloser(Closers(stack)[i])
    decreases |stack|
  {
    if stack != [] {
      ClosersAreClosers(Front(stack));
    }
  }

  // -------------------------------------------------------------- main results

  /** What a caller can check of a trimmed text before the repair. */
  predicate Repairable(t: string) {
    var z := ScanFrom(START, t);
    && Matched(START, t)
    && if Settled(t) then z.stack == [] && !z.inString
       else z.inString ==> !CutsAtEscapedQuote(t)
  }

  lemma ClosingBalancesIff(t: string, u: string, stack: string, escaped: bool)
    requires CutLeaves(t, u, escaped) && stack == ScanFrom(START, t).stack && stack != []
    requires Sane(Scan(stack, false, false))
    ensures Balanced(u + Closers(stack)) <==> Matched(START, t) && !escaped
  {
    ScanConcat(START, u, Closers(stack));
    if escaped {
      ClosersAreClosers(stack);
      StringTail(ScanFrom(START, u), Closers(stack));
    } else {
      ClosersClose(stack);
    }
  }

  /** For every input whatever: the repaired text is balanced exactly when the input has no
      mismatched closer, does not open a string after its brackets are closed, and is not
      cut at an escaped quote. */
  lemma RepairBalancesIff(s: string)
    ensures Balanced(Repaired(s)) <==> Repairable(TrimSpace(s))
  {
    var t := TrimSpace(s);
    var z := ScanFrom(START, t);
    ScanSane(START, t);
    if !Settled(t) {
      KeptCut(t);
      ClosingBalancesIff(t, Kept(t), z.stack, z.inString && CutsAtEscapedQuote(t));
    }
  }

  lemma KeptIsPrefix(t: string)
    ensures Kept(t) <= t
  {
    if ScanFrom(START, t).inString && LastIndex(t, '"') > 0 {
      var u := BeforeLastQuote(t);
      assert u <= t;
    }
  }

  /** The repair only cuts the end of the trimmed text and appends the closers of what is
      then open; text that does not start with a bracket is returned as it is. */
  lemma RepairIsPrefixPlusClosers(s: string)
    ensures
      var t := TrimSpace(s);
      if StartsWithBracket(t) then
        exists k: nat :: k <= |t| && Repaired(s) == t[..k] + Closers(ScanFrom(START, t[..k]).stack)
      else Repaired(s) == t
  {
    var t := TrimSpace(s);
    var k := |t|;
    if StartsWithBracket(t) && ScanFrom(START, t).stack != [] {
      KeptIsPrefix(t);
      k := |Kept(t)|;
      assert t[..k] == Kept(t);
    } else {
      assert t[..k] == t && t + "" == t;
    }
    assert StartsWithBracket(t) ==> Repaired(s) == t[..k] + Closers(ScanFrom(START, t[..k]).stack);
  }

  // ------------------------------------------------------------- truncations

  /** No quote inside a string of the text, so that every quote opens or closes one. */
  predicate PlainStrings(items: Items) {
    match items
    case End => true
    case Plain(_, rest) => PlainStrings(rest)
    case Quoted(body, rest) => '"' !in body && PlainStrings(rest)
    case Group(_, inner, rest) => PlainStrings(inner) && PlainStrings(rest)
  }

  /** No quote of s is escaped when it is scanned from z. */
  predicate NoEscapedQuote(z: Scan, s: string) {
    s == [] || (NoEscapedQuote(z, Front(s)) && (Last(s) == '"' ==> !ScanFrom(z, Front(s)).escaped))
  }

  lemma {:induction false} NoEscapedConcat(z: Scan, s: string, t: string)
    ensures NoEscapedQuote(z, s + t) <==> NoEscapedQuote(z, s) && NoEscapedQuote(ScanFrom(z, s), t)
    decreases |t|
  {
    if t == [] {
      assert s + t == s;
    } else {
      assert Front(s + t) == s + Front(t);
      NoEscapedConcat(z, s, Front(t));
      ScanConcat(z, s, Front(t));
    }
  }

  lemma NoEscapedOne(z: Scan, c: char)
    ensures NoEscapedQuote(z, [c]) <==> (c == '"' ==> !z.escaped)
  {
    assert Front([c]) == [];
  }

  lemma NoEscapedCons(z: Scan, c: char, s: string)
    ensures NoEscapedQuote(z, [c] + s) <==> (c == '"' ==> !z.escaped) && NoEscapedQuote(Step(z, c), s)
  {
    NoEscapedConcat(z, [c], s);
    NoEscapedOne(z, c);
    ScanOne(z, c);
  }

  lemma {:induction false} NoQuoteNoEscaped(z: Scan, s: string)
    requires '"' !in s
    ensures NoEscapedQuote(z, s)
    decreases |s|
  {
    if s != [] {
      assert forall c :: c in Front(s) ==> c in s;
      NoQuoteNoEscaped(z, Front(s));
    }
  }

  lemma {:induction false} TreeHasNoEscapedQuote(z: Scan, items: Items)
    requires Outside(z) && Proper(items) && PlainStrings(items)
    ensures NoEscapedQuote(z, Render(items))
    decreases items
  {
    match items {
      case End =>
      case Plain(c, rest) =>
        TreeHasNoEscapedQuote(z, rest);
        NoEscapedCons(z, c, Render(rest));
      case Quoted(body, rest) =>
        TreeHasNoEscapedQuote(z, rest);
        QuotedHasNone(z, body, Render(rest));
      case Group(open, inner, rest) =>
        var y := z.(stack := z.stack + [open]);
        TreeHasNoEscapedQuote(z, rest);
        TreeHasNoEscapedQuote(y, inner);
        RenderScans(y, inner);
        GroupHasNone(z, y, open, Render(inner), Render(rest));
    }
  }

  lemma QuotedHasNone(z: Scan, body: string, rest: string)
    requires Outside(z) && ProperBody(body) && '"' !in body && NoEscapedQuote(z, rest)
    ensures NoEscapedQuote(z, ['"'] + (body + (['"'] + rest)))
  {
    var y := z.(inString := true);
    NoEscapedCons(z, '"', body + (['"'] + rest));
    BodyScans(y, body);
    NoQuoteNoEscaped(y, body);
    NoEscapedConcat(y, body, ['"'] + rest);
    NoEscapedCons(y, '"', rest);
  }

  lemma GroupHasNone(z: Scan, y: Scan, open: char, inner: string, rest: string)
    requires Outside(z) && IsOpener(open) && y == z.(stack := z.stack + [open])
    requires ScanFrom(y, inner) == y && NoEscapedQuote(y, inner) && NoEscapedQuote(z, rest)
    ensures NoEscapedQuote(z, [open] + (inner + ([CloserOf(open)] + rest)))
  {
    assert Front(y.stack) == z.stack;
    var tail := [CloserOf(open)] + rest;
    NoEscapedCons(z, open, inner + tail);
    NoEscapedConcat(y, inner, tail);
    NoEscapedCons(y, CloserOf(open), rest);
  }

  lemma NoEscapedAt(s: string, k: nat, i: nat)
    requires NoEscapedQuote(START, s) && i < k <= |s| && s[i] == '"'
    ensures !EscapedAt(s[..k], i)
  {
    assert s == s[..i] + ([s[i]] + s[i + 1..]);
    NoEscapedConcat(START, s[..i], [s[i]] + s[i + 1..]);
    NoEscapedCons(ScanFrom(START, s[..i]), s[i], s[i + 1..]);
    assert s[..k][..i] == s[..i];
  }

  /** Inside the outermost group the stack never empties. */
  lemma {:induction false} StackStaysAbove(z: Scan, items: Items, k: nat)
    requires Outside(z) && z.stack != [] && Proper(items) && k <= |Render(items)|
    ensures ScanFrom(z, Render(items)[..k]).stack != []
    decreases items
  {
    var s := Render(items);
    if k == 0 {
      assert s[..0] == [];
    } else {
      match items {
        case Plain(c, rest) =>
          assert s[..k] == [c] + Render(rest)[..k - 1];
          ScanCons(z, c, Render(rest)[..k - 1]);
          StackStaysAbove(z, rest, k - 1);
        case Quoted(body, rest) =>
          StackAboveQuoted(z, body, rest, k);
        case Group(open, inner, rest) =>
          StackAboveGroup(z, open, inner, rest, k);
      }
    }
  }

  lemma {:induction false} StackAboveQuoted(z: Scan, body: string, rest: Items, k: nat)
    requires Outside(z) && z.stack != [] && ProperBody(body) && Proper(rest)
    requires 1 <= k <= |Render(Quoted(body, rest))|
    ensures ScanFrom(z, Render(Quoted(body, rest))[..k]).stack != []
    decreases Quoted(body, rest), 0
  {
    var s := Render(Quoted(body, rest));
    var y := z.(inString := true);
    if k <= |body| + 1 {
      assert s[..k] == ['"'] + body[..k - 1];
      ScanCons(z, '"', body[..k - 1]);
      InsideBody(y, body, k - 1);
    } else {
      var m := k - |body| - 2;
      assert s[..k] == ['"'] + (body + (['"'] + Render(rest)[..m]));
      QuotedScans(z, body, Render(rest)[..m]);
      StackStaysAbove(z, rest, m);
    }
  }

  /** Nothing in a string's body touches the stack. */
  lemma {:induction false} InsideBody(y: Scan, body: string, k: nat)
    requires y.inString && !y.escaped && ProperBody(body) && k <= |body|
    ensures ScanFrom(y, body[..k]).stack == y.stack
    decreases |body|
  {
    if k == 0 {
      assert body[..0] == [];
    } else {
      assert body[..k] == [body[0]] + body[1..][..k - 1];
      ScanCons(y, body[0], body[1..][..k - 1]);
      if body[0] != '\\' {
        InsideBody(y, body[1..], k - 1);
      } else if k == 1 {
        assert body[1..][..0] == [];
      } else {
        var rest := body[2..][..k - 2];
        assert body[1..][..k - 1] == [body[1]] + rest;
        ScanCons(Step(y, '\\'), body[1], rest);
        InsideBody(y, body[2..], k - 2);
      }
    }
  }

  lemma {:induction false} StackAboveGroup(z: Scan, open: char, inner: Items, rest: Items, k: nat)
    requires Outside(z) && IsOpener(open) && Proper(inner) && Proper(rest)
    requires 1 <= k <= |Render(Group(open, inner, rest))|
    requires z.stack != [] || k <= |Render(inner)| + 1
    ensures ScanFrom(z, Render(Group(open, inner, rest))[..k]).stack != []
    decreases Group(open, inner, rest), 0
  {
    var s := Render(Group(open, inner, rest));
    var y := z.(stack := z.stack + [open]);
    if k <= |Render(inner)| + 1 {
      assert s[..k] == [open] + Render(inner)[..k - 1];
      ScanCons(z, open, Render(inner)[..k - 1]);
      StackStaysAbove(y, inner, k - 1);
    } else {
      var m := k - |Render(inner)| - 2;
      var tail := [CloserOf(open)] + Render(rest)[..m];
      assert s[..k] == [open] + (Render(inner) + tail);
      RenderScans(y, inner);
      GroupScans(z, y, open, Render(inner), Render(rest)[..m]);
      StackStaysAbove(z, rest, m);
    }
  }

  /** A document: one top-level group around a proper tree, with no quote inside its
      strings, possibly with spaces around it. */
  predicate IsDocument(d: string, lead: string, open: char, inner: Items, trail: string) {
    && IsOpener(open) && Proper(inner) && PlainStrings(inner)
    && (forall i :: 0 <= i < |lead| ==> IsSpace(lead[i]))
    && (forall i :: 0 <= i < |trail| ==> IsSpace(trail[i]))
    && d == lead + (Render(Group(open, inner, End)) + trail)
  }

  lemma TrimTrail(core: string, trail: string, m: nat)
    requires m <= |core + trail| && forall i :: 0 <= i < |trail| ==> IsSpace(trail[i])
    ensures TrimRight((core + trail)[..m], IsSpace) <= core
  {
    var s := (core + trail)[..m];
    var t := TrimRight(s, IsSpace);
    forall i | |core| <= i < |s| ensures IsSpace(s[i]) {
      assert s[i] == trail[i - |core|];
    }
    assert t == core[..|t|];
  }

  lemma {:induction false} AllSpaceTrims(s: string)
    requires forall i :: 0 <= i < |s| ==> IsSpace(s[i])
    ensures TrimLeft(s, IsSpace) == ""
    decreases |s|
  {
    if s != [] {
      AllSpaceTrims(s[1..]);
    }
  }

  /** Trimming a truncation of padded text leaves a truncation of the text. */
  lemma TrimmedTruncation(lead: string, core: string, trail: string, n: nat)
    requires core != [] && !IsSpace(core[0]) && n <= |lead + (core + trail)|
    requires forall i :: 0 <= i < |lead| ==> IsSpace(lead[i])
    requires forall i :: 0 <= i < |trail| ==> IsSpace(trail[i])
    ensures TrimSpace((lead + (core + trail))[..n]) <= core
  {
    var s := (lead + (core + trail))[..n];
    if n <= |lead| {
      AllSpaceTrims(s);
    } else {
      LeftTrimStops(s, |lead|);
      var left := TrimLeft(s, IsSpace);
      assert left == (core + trail)[..n - |lead|];
      TrimTrail(core, trail, n - |lead|);
      assert TrimSpace(s) == TrimRight(left, IsSpace);
    }
  }

  lemma {:induction false} LeftTrimStops(s: string, k: nat)
    requires k < |s| && !IsSpace(s[k]) && forall i :: 0 <= i < k ==> IsSpace(s[i])
    ensures TrimLeft(s, IsSpace) == s[k..]
    decreases k
  {
    if k > 0 {
      LeftTrimStops(s[1..], k - 1);
      assert s[1..][k - 1..] == s[k..];
    }
  }

  lemma NoEscapedNoBadCut(s: string, t: string)
    requires NoEscapedQuote(START, s) && t <= s && ScanFrom(START, t).inString
    ensures !CutsAtEscapedQuote(t)
  {
    assert s[..|t|] == t;
    LastQuote(t);
    NoEscapedAt(s, |t|, LastIndex(t, '"'));
    var u := BeforeLastQuote(t);
    if DanglingKey(u) && LastIndex(KeyText(u), '"') >= 0 {
      var k := KeyText(u);
      assert k <= u <= t;
      assert s[..|k|] == k;
      NoEscapedAt(s, |k|, LastIndex(k, '"'));
    }
  }

  lemma DocumentPrefixScans(open: char, inner: Items, t: string)
    requires IsOpener(open) && Proper(inner)
    requires t <= Render(Group(open, inner, End)) && t != []
    ensures StartsWithBracket(t) && Matched(START, t)
    ensures ScanFrom(START, t).stack == [] ==> !ScanFrom(START, t).inString
  {
    var doc := Group(open, inner, End);
    var s := Render(doc);
    RenderScans(START, doc);
    MatchedPrefix(START, s, |t|);
    assert s[..|t|] == t;
    if |t| <= |Render(inner)| + 1 {
      StackAboveGroup(START, open, inner, End, |t|);
    } else {
      assert t == s;
    }
  }

  lemma DocumentPrefixIsRepairable(open: char, inner: Items, t: string)
    requires IsOpener(open) && Proper(inner) && PlainStrings(inner)
    requires t <= Render(Group(open, inner, End)) && t != []
    ensures Repairable(t)
  {
    DocumentPrefixScans(open, inner, t);
    if ScanFrom(START, t).inString {
      TreeHasNoEscapedQuote(START, Group(open, inner, End));
      NoEscapedNoBadCut(Render(Group(open, inner, End)), t);
    }
  }

  /** Every truncation of such a document is repaired to a balanced text. */
  lemma TruncatedDocumentIsRepaired(d: string, lead: string, open: char, inner: Items, trail: string, n: nat)
    requires IsDocument(d, lead, open, inner, trail) && n <= |d|
    ensures Balanced(Repaired(d[..n]))
    ensures exists items :: IsTree(items, Repaired(d[..n]))
  {
    TrimmedTruncation(lead, Render(Group(open, inner, End)), trail, n);
    var t := TrimSpace(d[..n]);
    if t != [] {
      DocumentPrefixIsRepairable(open, inner, t);
    }
    RepairBalancesIff(d[..n]);
    BalancedIffTree(Repaired(d[..n]));
  }

  // ------------------------------------------------------------- idempotence

  lemma TrimIsTrimmed(s: string)
    ensures TrimSpace(TrimSpace(s)) == TrimSpace(s)
  {
    var l := TrimLeft(s, IsSpace);
    var t := TrimRight(l, IsSpace);
    if t != [] {
      assert t[0] == l[0];
    }
    TrimSpaceFixed(t);
  }

  /** The repaired text starts with the bracket it started with and ends in a closer. */
  lemma RepairEnds(t: string)
    requires !Settled(t)
    ensures
      var r := RepairedTrimmed(t);
      r != [] && r[0] == t[0] && IsCloser(Last(r))
  {
    KeptCut(t);
    KeptIsPrefix(t);
    ScanSane(START, t);
    ClosersAreClosers(ScanFrom(START, t).stack);
    assert Kept(t) != [];
    assert Last(RepairedTrimmed(t)) == Last(Closers(ScanFrom(START, t).stack));
  }

  lemma TrimmedByItsEnds(r: string)
    requires r != [] && IsOpener(r[0]) && IsCloser(Last(r))
    ensures TrimSpace(r) == r
  {
    TrimSpaceFixed(r);
  }

  lemma RepairedIsTrimmed(s: string)
    ensures TrimSpace(Repaired(s)) == Repaired(s)
  {
    var t := TrimSpace(s);
    TrimIsTrimmed(s);
    if !Settled(t) {
      RepairEnds(t);
      TrimmedByItsEnds(RepairedTrimmed(t));
    }
  }

  /** Closers appended inside a string stay in it... */
  lemma ClosersInString(u: string, stack: string)
    requires LeftInString(u) && Sane(Scan(stack, false, false)) && stack == ScanFrom(START, u).stack
    ensures var z := ScanFrom(START, u + Closers(stack)); z.inString && z.stack == stack && Sane(z)
  {
    ScanSane(START, u + Closers(stack));
    ClosersAreClosers(stack);
    ScanConcat(START, u, Closers(stack));
    StringTail(ScanFrom(START, u), Closers(stack));
  }

  /** ...behind the backslash of the cut, which no quote follows. */
  lemma ClosersHaveNoQuote(r: string, u: string, closers: string)
    requires u != [] && Last(u) == '\\' && r == u + closers
    requires forall i :: 0 <= i < |closers| ==> IsCloser(closers[i])
    ensures LastIndex(r, '"') < |u| - 1 < |r| && r[|u| - 1] == '\\'
  {
    forall i | |u| <= i < |r| ensures r[i] != '"' {
      assert r[i] == closers[i - |u|];
    }
  }

  lemma CutBeforeQuote(t: string)
    requires ScanFrom(START, t).inString && StartsWithBracket(t)
    ensures |Kept(t)| <= LastIndex(t, '"')
  {
    LastQuote(t);
    var u := BeforeLastQuote(t);
    assert |u| <= LastIndex(t, '"');
  }

  /** Behind the last quote the repaired text consists of closers only. */
  lemma ClosersAppended(t: string, i: nat)
    requires !Settled(t) && Sane(ScanFrom(START, t))
    requires ScanFrom(START, t).inString && LastIndex(t, '"') < i < |t|
    ensures !IsCloser(t[i]) ==> RepairedTrimmed(t) != t
  {
    LastQuote(t);
    KeptCut(t);
    CutBeforeQuote(t);
    ClosersAreClosers(ScanFrom(START, t).stack);
  }

  /** Text closed inside a string, right behind a backslash, is cut again. */
  lemma BadClosersChange(r: string, u: string, stack: string)
    requires u != [] && Last(u) == '\\' && LeftInString(u) && r == u + Closers(stack)
    requires stack != [] && Sane(Scan(stack, false, false)) && stack == ScanFrom(START, u).stack
    requires StartsWithBracket(r)
    ensures RepairedTrimmed(r) != r
  {
    ClosersInString(u, stack);
    ClosersAreClosers(stack);
    ClosersHaveNoQuote(r, u, Closers(stack));
    ClosersAppended(r, |u| - 1);
  }

  lemma BadCutChangesAgain(t: string)
    requires !Settled(t) && ScanFrom(START, t).inString && CutsAtEscapedQuote(t)
    ensures RepairedTrimmed(RepairedTrimmed(t)) != RepairedTrimmed(t)
  {
    var u, stack := Kept(t), ScanFrom(START, t).stack;
    ScanSane(START, t);
    KeptCut(t);
    assert StartsWithBracket(u + Closers(stack)) by {
      RepairEnds(t);
    }
    BadClosersChange(u + Closers(stack), u, stack);
  }

  lemma GoodCutIsSettled(t: string)
    requires !Settled(t) && (ScanFrom(START, t).inString ==> !CutsAtEscapedQuote(t))
    ensures Settled(RepairedTrimmed(t))
  {
    ScanSane(START, t);
    KeptCut(t);
    ScanConcat(START, Kept(t), Closers(ScanFrom(START, t).stack));
    ClosersClose(ScanFrom(START, t).stack);
  }

  /** Repairing twice is repairing once, exactly when the first repair did not cut at an
      escaped quote. */
  lemma RepairIsIdempotentIff(s: string)
    ensures
      var t := TrimSpace(s);
      Repaired(Repaired(s)) == Repaired(s) <==>
      (!Settled(t) && ScanFrom(START, t).inString ==> !CutsAtEscapedQuote(t))
  {
    var t := TrimSpace(s);
    RepairedIsTrimmed(s);
    if Settled(t) {
    } else if ScanFrom(START, t).inString && CutsAtEscapedQuote(t) {
      BadCutChangesAgain(t);
    } else {
      GoodCutIsSettled(t);
    }
  }

  lemma CutEndsInBrackets(s: string, i: nat)
    requires i < |s| && StartsWithBracket(s) && ClosesAt(s, i)
    ensures !IsSpace(s[0]) && !IsSpace(s[i])
  {}

  /** The part `findJSONEnd` cuts off needs no repair. */
  lemma CutPartNeedsNoRepair(s: string, i: nat)
    requires i < |s| && StartsWithBracket(s) && Matched(START, s) && ClosesAt(s, i)
    ensures Repaired(s[..i + 1]) == s[..i + 1]
  {
    var part := s[..i + 1];
    CutAtEndIsBalanced(s, i);
    CutEndsInBrackets(s, i);
    assert part[0] == s[0] && Last(part) == s[i];
    TrimSpaceFixed(part);
    RepairedIs(part, part);
  }

  lemma ScanSnoc(x: string, c: char)
    ensures ScanFrom(START, x + [c]) == Step(ScanFrom(START, x), c)
    ensures Matched(START, x + [c]) <==> Matched(START, x) && Fits(ScanFrom(START, x), c)
  {
    assert Front(x + [c]) == x;
  }

  lemma SampleScan(cut: string, s: string)
    requires cut == [] + ['{'] + ['"'] + ['\\'] && s == cut + ['"'] + ['x']
    ensures ScanFrom(START, s) == Scan(['{'], true, false) && Matched(START, s)
    ensures ScanFrom(START, cut) == Scan(['{'], true, true)
  {
    ScanSnoc([], '{');
    ScanSnoc([] + ['{'], '"');
    ScanSnoc([] + ['{'] + ['"'], '\\');
    ScanSnoc(cut, '"');
    ScanSnoc(cut + ['"'], 'x');
  }

  lemma SampleQuote(cut: string, s: string)
    requires |cut| == 3 && s == cut + ['"'] + ['x']
    ensures LastIndex(s, '"') == 3 && s[..3] == cut
  {
    assert Front(s) == cut + ['"'];
  }

  lemma CutAtEscapedQuoteFails(s: string)
    requires StartsWithBracket(s) && ScanFrom(START, s).inString
    requires LastIndex(s, '"') >= 0 && EscapedAt(s, LastIndex(s, '"'))
    ensures !Repairable(s) || ScanFrom(START, s).stack == []
  {}

  /** The escaped-quote condition is needed: this text has no mismatch, yet its repair is
      not balanced. */
  lemma EscapedQuoteDefeatsRepair(s: string)
    requires s == ['{', '"', '\\', '"', 'x']
    ensures Matched(START, s) && !Balanced(Repaired(s))
  {
    var cut := [] + ['{'] + ['"'] + ['\\'];
    assert s == cut + ['"'] + ['x'];
    SampleScan(cut, s);
    SampleQuote(cut, s);
    TrimSpaceFixed(s);
    CutAtEscapedQuoteFails(s);
    RepairBalancesIff(s);
  }
}
