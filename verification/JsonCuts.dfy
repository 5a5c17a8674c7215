/** brain/plan.go: what the repair of a truncated JSON text takes away, for every text. */
module JsonCuts {
  import opened Text
  import opened JsonScan
  import opened JsonRepair

  const BLANKS := {' ', '\t', '\n', '\r'}

  /** From position lo up to hi there are blanks only, or blanks and commas. */
  predicate AllBlank(t: string, lo: nat, hi: nat)
    requires hi <= |t|
  {
    forall i :: lo <= i < hi ==> t[i] in BLANKS
  }

  predicate AllSeparators(t: string, lo: nat, hi: nat)
    requires hi <= |t|
  {
    forall i :: lo <= i < hi ==> t[i] in BLANKS || t[i] == ','
  }

  /** c is the last position before hi that holds no blank. */
  predicate LastMark(t: string, c: nat, hi: nat)
    requires hi <= |t|
  {
    c < hi && t[c] !in BLANKS && AllBlank(t, c + 1, hi)
  }

  /** q is the last quote before hi. */
  predicate LastQuoteAt(t: string, q: nat, hi: nat)
    requires hi <= |t|
  {
    q < hi && t[q] == '"' && forall i :: q < i < hi ==> t[i] != '"'
  }

  lemma MarkStays(s: string, cut: char -> bool, i: nat)
    requires i < |s| && !cut(s[i])
    ensures i < |TrimRight(s, cut)|
  {}

  lemma TrimStops(t: string, hi: nat) returns (c: nat)
    requires 1 <= hi <= |t| && IsOpener(t[0])
    ensures LastMark(t, c, hi) && TrimRight(t[..hi], Blank) == t[..c + 1]
  {
    var u := TrimRight(t[..hi], Blank);
    MarkStays(t[..hi], Blank, 0);
    c := |u| - 1;
    assert u == t[..c + 1];
    forall i | c + 1 <= i < hi ensures t[i] in BLANKS {
      assert Blank(t[..hi][i]);
    }
  }

  lemma SeparatorsStop(t: string, hi: nat) returns (k: nat)
    requires 1 <= hi <= |t| && IsOpener(t[0])
    ensures 1 <= k <= hi && TrimRight(t[..hi], BlankOrComma) == t[..k]
    ensures AllSeparators(t, k, hi) && t[k - 1] !in BLANKS && t[k - 1] != ','
  {
    var u := TrimRight(t[..hi], BlankOrComma);
    MarkStays(t[..hi], BlankOrComma, 0);
    k := |u|;
    assert u == t[..k];
    assert Last(u) == t[k - 1];
    forall i | k <= i < hi ensures t[i] in BLANKS || t[i] == ',' {
      assert BlankOrComma(t[..hi][i]);
    }
  }

  lemma LastIndexIs(t: string, hi: nat)
    requires hi <= |t|
    ensures var q := LastIndex(t[..hi], '"');
      if q >= 0 then LastQuoteAt(t, q, hi) else forall i :: 0 <= i < hi ==> t[i] != '"'
  {
    var q := LastIndex(t[..hi], '"');
    forall i | q < i < hi ensures t[i] != '"' {
      assert t[..hi][i] == t[i];
    }
  }

  lemma CutBack(t: string, hi: nat, n: nat)
    requires n <= hi <= |t|
    ensures t[..hi][..n] == t[..n]
  {}

  /** Where the string begins that is taken away: behind a colon it goes with what is before
      the colon, a key from its own first quote on. `c` is what stands before the string, `b`
      what stands before a colon. */
  predicate FirstTaken(t: string, q: nat, c: nat, b: nat, from: nat)
    requires q < |t|
  {
    && LastMark(t, c, q)
    && if t[c] != ':' then from == c + 1
       else
         && LastMark(t, b, c)
         && if t[b] != '"' then from == b + 1
            else if forall i :: 0 <= i < b ==> t[i] != '"' then from == b + 1
            else from < b && LastQuoteAt(t, from, b)
  }

  lemma BeforeColon(t: string, q: nat, c: nat) returns (b: nat, from: nat)
    requires q < |t| && IsOpener(t[0]) && LastMark(t, c, q) && t[c] == ':'
    ensures FirstTaken(t, q, c, b, from) && 1 <= from <= c
    ensures WithoutDanglingKey(t[..c + 1]) == t[..from]
  {
    var u := t[..c + 1];
    assert Front(u) == t[..c];
    b := TrimStops(t, c);
    var v := t[..b + 1];
    from := b + 1;
    if t[b] == '"' {
      assert DanglingKey(u) && KeyText(u) == t[..b];
      LastIndexIs(t, b);
      var p := LastIndex(t[..b], '"');
      if p >= 0 {
        from := p;
        CutBack(t, c + 1, p);
      }
    }
  }

  /** A text that ends inside a string, whatever the string: with q its last quote, the cut
      begins before q, at the key if the string was a value, and what is left does not end in
      a blank or comma. The text behind the cut is: separators, then the key with its colon,
      if any, then the string. */
  lemma OpenStringGoes(t: string, q: nat) returns (k: nat, from: nat, c: nat, b: nat)
    requires StartsWithBracket(t) && ScanFrom(START, t).stack != [] && ScanFrom(START, t).inString
    requires LastQuoteAt(t, q, |t|)
    ensures FirstTaken(t, q, c, b, from)
    ensures 1 <= k <= from <= q && AllSeparators(t, k, from) && t[k - 1] !in BLANKS && t[k - 1] != ','
    ensures RepairedTrimmed(t) == t[..k] + Closers(ScanFrom(START, t[..k]).stack)
  {
    LastIndexIs(t, |t|);
    assert t[..|t|] == t;
    assert LastIndex(t, '"') == q > 0;
    c := TrimStops(t, q);
    var u := t[..c + 1];
    assert BeforeLastQuote(t) == u && Last(u) == t[c];
    b, from := 0, c + 1;
    if t[c] == ':' {
      b, from := BeforeColon(t, q, c);
    }
    k := SeparatorsStop(t, from);
    assert Kept(t) == t[..k];
  }

  /** A text that ends outside strings loses the blanks, commas and colons at its end. */
  lemma SeparatorsGo(t: string) returns (k: nat)
    requires StartsWithBracket(t) && ScanFrom(START, t).stack != [] && !ScanFrom(START, t).inString
    ensures 1 <= k <= |t| && t[k - 1] !in BLANKS && t[k - 1] != ',' && t[k - 1] != ':'
    ensures forall i :: k <= i < |t| ==> t[i] in BLANKS || t[i] == ',' || t[i] == ':'
    ensures RepairedTrimmed(t) == t[..k] + Closers(ScanFrom(START, t[..k]).stack)
  {
    var u := TrimRight(t, BlankCommaColon);
    MarkStays(t, BlankCommaColon, 0);
    k := |u|;
    assert u == t[..k] == Kept(t);
    assert Last(u) == t[k - 1];
    forall i | k <= i < |t| ensures t[i] in BLANKS || t[i] == ',' || t[i] == ':' {
      assert BlankCommaColon(t[i]);
    }
  }

  /** In a text outside strings before q, a quote before the colon ends a key whose first
      quote is there too. */
  lemma KeyHasFirstQuote(t: string, q: nat, c: nat, b: nat)
    requires q < |t| && Outside(ScanFrom(START, t[..q])) && LastMark(t, c, q) && LastMark(t, b, c)
    requires t[c] == ':' && t[b] == '"'
    ensures exists i :: 0 <= i < b && t[i] == '"'
  {
    if forall i :: 0 <= i < b ==> t[i] != '"' {
      NoQuoteStaysOut(START, t[..b]);
      var z := ScanFrom(START, t[..b]);
      var rest := t[b + 1..q];
      assert t[..q] == t[..b] + (['"'] + rest);
      ScanConcat(START, t[..b], ['"'] + rest);
      ScanCons(z, '"', rest);
      forall i | 0 <= i < |rest| ensures rest[i] != '"' {
        assert rest[i] == t[b + 1 + i];
      }
      StringTail(Step(z, '"'), rest);
    }
  }

  /** When the last quote is not an escaped one, it is the one that opened the string: all of
      the string goes; and of a string that was the value of a key, all of the key. */
  lemma WholeStringGoes(t: string, q: nat) returns (k: nat, from: nat, c: nat, b: nat)
    requires StartsWithBracket(t) && ScanFrom(START, t).stack != [] && ScanFrom(START, t).inString
    requires LastQuoteAt(t, q, |t|) && !EscapedAt(t, q)
    ensures Outside(ScanFrom(START, t[..q]))
    ensures 1 <= k <= from <= q && AllSeparators(t, k, from) && t[k - 1] !in BLANKS && t[k - 1] != ','
    ensures LastMark(t, c, q)
    ensures RepairedTrimmed(t) == t[..k] + Closers(ScanFrom(START, t[..k]).stack)
    ensures t[c] != ':' ==> AllBlank(t, from, q)
    ensures t[c] == ':' ==> LastMark(t, b, c)
    ensures t[c] == ':' && t[b] != '"' ==> AllBlank(t, from, c)
    ensures t[c] == ':' && t[b] == '"' ==> from < b && LastQuoteAt(t, from, b)
  {
    LastIndexIs(t, |t|);
    assert t[..|t|] == t;
    LastQuote(t);
    k, from, c, b := OpenStringGoes(t, q);
    if t[c] == ':' && t[b] == '"' {
      KeyHasFirstQuote(t, q, c, b);
    }
  }

  lemma StringHasQuote(t: string) returns (q: nat)
    requires ScanFrom(START, t).inString
    ensures LastQuoteAt(t, q, |t|)
  {
    LastQuote(t);
    LastIndexIs(t, |t|);
    assert t[..|t|] == t;
    q := LastIndex(t, '"');
  }

  /** A trimmed text is returned as it is when it begins with no bracket or has none open,
      and else cut as above and closed. */
  lemma TrimmedTextIsCut(t: string) returns (k: nat, q: nat)
    ensures !StartsWithBracket(t) || ScanFrom(START, t).stack == [] ==> RepairedTrimmed(t) == t
    ensures StartsWithBracket(t) && ScanFrom(START, t).stack != [] ==>
      && 1 <= k <= |t| && t[k - 1] !in BLANKS && t[k - 1] != ','
      && RepairedTrimmed(t) == t[..k] + Closers(ScanFrom(START, t[..k]).stack)
      && if ScanFrom(START, t).inString then k <= q && LastQuoteAt(t, q, |t|)
         else t[k - 1] != ':' && forall i :: k <= i < |t| ==> t[i] in BLANKS || t[i] == ',' || t[i] == ':'
  {
    k, q := 0, 0;
    if StartsWithBracket(t) && ScanFrom(START, t).stack != [] {
      if ScanFrom(START, t).inString {
        q := StringHasQuote(t);
        var from, c, b;
        k, from, c, b := OpenStringGoes(t, q);
      } else {
        k := SeparatorsGo(t);
      }
    }
  }
}
