/** The parts of Go's `strings` package the modelled code calls. A string is a
    sequence of code points; every delimiter the code looks for is ASCII, so
    reading bytes or code points finds the same positions. */
module Text {

  const ASCII_BLANKS := {' ', '\t', '\n', '\r'}

  /** unicode.IsSpace. */
  predicate IsSpace(c: char) {
    || c in ASCII_BLANKS || c == '\U{0B}' || c == '\U{0C}' || c == '\U{85}' || c == '\U{A0}'
    || c == '\U{1680}' || '\U{2000}' <= c <= '\U{200A}' || c == '\U{2028}' || c == '\U{2029}'
    || c == '\U{202F}' || c == '\U{205F}' || c == '\U{3000}'
  }

  function Last<T>(s: seq<T>): T
    requires s != []
  {
    s[|s| - 1]
  }

  function Front<T>(s: seq<T>): seq<T>
    requires s != []
  {
    s[..|s| - 1]
  }

  /** strings.TrimRight: drop trailing characters that are in the cut set. */
  function TrimRight(s: string, cut: char -> bool): (r: string)
    ensures r <= s
    ensures r != [] ==> !cut(Last(r))
    ensures forall i :: |r| <= i < |s| ==> cut(s[i])
  {
    if s != [] && cut(Last(s)) then TrimRight(Front(s), cut) else s
  }

  function TrimLeft(s: string, cut: char -> bool): (r: string)
    ensures |r| <= |s| && r == s[|s| - |r|..]
    ensures r != [] ==> !cut(r[0])
    ensures forall i :: 0 <= i < |s| - |r| ==> cut(s[i])
  {
    if s != [] && cut(s[0]) then TrimLeft(s[1..], cut) else s
  }

  function TrimSpace(s: string): string { TrimRight(TrimLeft(s, IsSpace), IsSpace) }

  /** A string is its own trimming when neither end is a space. */
  lemma TrimSpaceFixed(s: string)
    requires s != [] ==> !IsSpace(s[0]) && !IsSpace(Last(s))
    ensures TrimSpace(s) == s
  {}

  /** strings.LastIndex of one character. */
  function LastIndex(s: string, c: char): (i: int)
    ensures -1 <= i < |s|
    ensures i >= 0 ==> s[i] == c
    ensures forall k :: i < k < |s| ==> s[k] != c
  {
    if s == [] then -1 else if Last(s) == c then |s| - 1 else LastIndex(Front(s), c)
  }

  /** strings.Contains. */
  predicate Contains(s: string, sub: string) {
    exists i :: 0 <= i <= |s| && sub <= s[i..]
  }

  /** strings.Join. */
  function Join(parts: seq<string>, sep: string): string {
    if parts == [] then "" else if |parts| == 1 then parts[0] else parts[0] + sep + Join(parts[1..], sep)
  }

  /** The longest prefix free of the stop characters. */
  function Until(s: string, stop: char -> bool): (r: string)
    ensures r <= s
    ensures forall i :: 0 <= i < |r| ==> !stop(r[i])
    ensures |r| < |s| ==> stop(s[|r|])
  {
    if s == [] || stop(s[0]) then "" else [s[0]] + Until(s[1..], stop)
  }

  lemma {:induction false} UntilStops(word: string, rest: string, stop: char -> bool)
    requires forall i :: 0 <= i < |word| ==> !stop(word[i])
    requires rest == [] || stop(rest[0])
    ensures Until(word + rest, stop) == word
    decreases |word|
  {
    if word == [] {
      assert word + rest == rest;
    } else {
      assert (word + rest)[1..] == word[1..] + rest;
      UntilStops(word[1..], rest, stop);
    }
  }

  /** strings.Fields. */
  function Fields(s: string): seq<string>
    decreases |s|
  {
    var t := TrimLeft(s, IsSpace);
    if t == [] then []
    else
      var word := Until(t, IsSpace);
      [word] + Fields(t[|word|..])
  }
}
