/** actions/runner.go: event filters and the templates of actions as they are resolved when an
    event comes in; tools/actions.go: the same for a dry run, done in another way. Values are
    strings already, in the form the verb %v prints them. */
module Templates {
  import opened Wrappers
  import opened Text
  import opened Substrings

  type Payload = map<string, string>

  // ------------------------------------------------------------ placeholders

  predicate IsWordChar(c: char) { 'a' <= c <= 'z' || 'A' <= c <= 'Z' || '0' <= c <= '9' || c == '_' }

  predicate AllWordChars(s: string) { forall i :: 0 <= i < |s| ==> IsWordChar(s[i]) }

  predicate IsWord(s: string) { s != "" && AllWordChars(s) }

  /** The longest prefix of word characters. */
  function WordPrefix(s: string): string {
    if s == "" || !IsWordChar(s[0]) then "" else [s[0]] + WordPrefix(s[1..])
  }

  lemma {:induction false} WordPrefixIs(s: string)
    ensures WordPrefix(s) <= s && AllWordChars(WordPrefix(s))
    ensures |WordPrefix(s)| < |s| ==> !IsWordChar(s[|WordPrefix(s)|])
    decreases |s|
  {
    if s != "" && IsWordChar(s[0]) {
      WordPrefixIs(s[1..]);
    }
  }

  function Placeholder(key: string): (r: string)
    ensures |r| == |key| + 4
  {
    ['{', '{'] + key + ['}', '}']
  }

  /** The name in a placeholder that begins the string, as the regular expression matches it. */
  function MatchHead(s: string): Option<string> {
    if |s| >= 2 && s[0] == '{' && s[1] == '{' then
      var w := WordPrefix(s[2..]);
      WordPrefixIs(s[2..]);
      if w != "" && |w| + 4 <= |s| && s[|w| + 2] == '}' && s[|w| + 3] == '}' then Some(w) else None
    else None
  }

  /** A match is a word in its two pairs of braces, at the beginning of the string. */
  lemma MatchIsPlaceholder(s: string)
    requires MatchHead(s).Some?
    ensures IsWord(MatchHead(s).value) && Placeholder(MatchHead(s).value) <= s
  {
    WordPrefixIs(s[2..]);
    var w := MatchHead(s).value;
    assert s[2..][..|w|] == w;
    forall i | 0 <= i < |w| + 4 ensures Placeholder(w)[i] == s[i] {
      assert 2 <= i < |w| + 2 ==> s[i] == s[2..][i - 2] == w[i - 2];
    }
  }

  lemma MatchSplits(s: string)
    requires MatchHead(s).Some?
    ensures
      var w := MatchHead(s).value;
      IsWord(w) && |w| + 4 <= |s| && s == Placeholder(w) + s[|w| + 4..]
  {
    MatchIsPlaceholder(s);
    PrefixSplits(Placeholder(MatchHead(s).value), s);
  }

  lemma PrefixSplits(t: string, s: string)
    requires t <= s
    ensures s == t + s[|t|..]
  {}

  lemma {:induction false} WordPrefixStops(w: string, rest: string)
    requires AllWordChars(w) && (rest == "" || !IsWordChar(rest[0]))
    ensures WordPrefix(w + rest) == w
    decreases |w|
  {
    if w == "" {
      assert w + rest == rest;
    } else {
      assert (w + rest)[1..] == w[1..] + rest;
      WordPrefixStops(w[1..], rest);
    }
  }

  /** Every word in its braces is matched, whatever follows. */
  lemma PlaceholderMatches(w: string, rest: string)
    requires IsWord(w)
    ensures MatchHead(Placeholder(w) + rest) == Some(w)
  {
    var s := Placeholder(w) + rest;
    assert s[2..] == w + (['}', '}'] + rest);
    WordPrefixStops(w, ['}', '}'] + rest);
  }

  // --------------------------------------------------- the runtime resolver

  /** One pass from left to right over the matches of the regular expression. */
  function ResolveTemplate(s: string, payload: Payload): string
    decreases |s|
  {
    if s == "" then ""
    else
      match MatchHead(s)
      case Some(w) => Resolved(w, payload) + ResolveTemplate(s[|w| + 4..], payload)
      case None => [s[0]] + ResolveTemplate(s[1..], payload)
  }

  function Resolved(w: string, payload: Payload): string { if w in payload then payload[w] else Placeholder(w) }

  lemma ResolveMatch(w: string, rest: string, payload: Payload)
    requires IsWord(w)
    ensures ResolveTemplate(Placeholder(w) + rest, payload) == Resolved(w, payload) + ResolveTemplate(rest, payload)
  {
    PlaceholderMatches(w, rest);
    assert (Placeholder(w) + rest)[|w| + 4..] == rest;
  }

  lemma ResolveChar(c: char, rest: string, payload: Payload)
    requires c != '{' || rest == "" || rest[0] != '{'
    ensures ResolveTemplate([c] + rest, payload) == [c] + ResolveTemplate(rest, payload)
  {
    assert ([c] + rest)[1..] == rest;
  }

  // ------------------------------------------------------------- the dry run

  /** The payload's entries one after the other, in the order the map is iterated. */
  function ResolveInTurn(s: string, payload: Payload, order: seq<string>): string
    requires forall k :: k in order ==> k in payload
  {
    if order == [] then s
    else Replace(ResolveInTurn(s, payload, Front(order)), Placeholder(Last(order)), payload[Last(order)], -1)
  }

  /** Any order of a map's keys. */
  ghost predicate Enumerates(order: seq<string>, payload: Payload) {
    && (forall k :: k in order <==> k in payload)
    && forall i, j :: 0 <= i < j < |order| ==> order[i] != order[j]
  }

  method ResolveTemplateVars(template: string, payload: Payload, order: seq<string>) returns (r: string)
    requires Enumerates(order, payload)
    ensures r == ResolveInTurn(template, payload, order)
  {
    r := template;
    for i := 0 to |order|
      invariant r == ResolveInTurn(template, payload, order[..i])
    {
      assert Front(order[..i + 1]) == order[..i];
      var placeholder := Placeholder(order[i]);
      r := Replace(r, placeholder, payload[order[i]], -1);
    }
    assert order[..|order|] == order;
  }

  // ------------------------------------------------------------ one key only

  lemma ScanHere(t: string, rest: string, with: string)
    requires t != ""
    ensures Scan(t + rest, t, with) == with + Scan(rest, t, with)
  {
    assert (t + rest)[|t|..] == rest;
  }

  lemma ScanChar(c: char, rest: string, t: string, with: string)
    requires t != "" && !(t <= [c] + rest)
    ensures Scan([c] + rest, t, with) == [c] + Scan(rest, t, with)
  {
    assert ([c] + rest)[1..] == rest;
  }

  predicate NoBrace(s: string) { forall i :: 0 <= i < |s| ==> s[i] != '{' }

  lemma {:induction false} ScanPlain(plain: string, rest: string, t: string, with: string)
    requires t != "" && t[0] == '{' && NoBrace(plain)
    ensures Scan(plain + rest, t, with) == plain + Scan(rest, t, with)
    decreases |plain|
  {
    if plain == "" {
      assert plain + rest == rest;
    } else {
      HeadFirst(plain, rest);
      ScanChar(plain[0], plain[1..] + rest, t, with);
      ScanPlain(plain[1..], rest, t, with);
      HeadFirst(plain, Scan(rest, t, with));
    }
  }

  lemma HeadFirst(s: string, rest: string)
    requires s != ""
    ensures s + rest == [s[0]] + (s[1..] + rest)
  {}

  /** Where the placeholder of a word begins the string, the regular expression matches it. */
  lemma PrefixIsMatch(s: string, key: string)
    requires IsWord(key) && Placeholder(key) <= s
    ensures MatchHead(s) == Some(key)
  {
    var rest := s[|key| + 4..];
    assert s == Placeholder(key) + rest;
    PlaceholderMatches(key, rest);
  }

  /** The placeholder of another word is passed over. */
  lemma ScanOther(w: string, rest: string, key: string, value: string)
    requires IsWord(w) && IsWord(key) && w != key
    ensures Scan(Placeholder(w) + rest, Placeholder(key), value) == Placeholder(w) + Scan(rest, Placeholder(key), value)
  {
    var t, body := Placeholder(key), w + ['}', '}'];
    OtherIsNoPrefix(w, rest, key);
    Unfolded(w, rest);
    Unfolded(w, Scan(rest, t, value));
    ScanPlain(body, rest, t, value);
    assert (['{'] + (body + rest))[1] == w[0];
    ScanChar('{', body + rest, t, value);
    ScanChar('{', ['{'] + (body + rest), t, value);
  }

  lemma OtherIsNoPrefix(w: string, rest: string, key: string)
    requires IsWord(w) && IsWord(key) && w != key
    ensures !(Placeholder(key) <= Placeholder(w) + rest)
  {
    PlaceholderMatches(w, rest);
    if Placeholder(key) <= Placeholder(w) + rest {
      PrefixIsMatch(Placeholder(w) + rest, key);
    }
  }

  lemma Unfolded(w: string, rest: string)
    ensures Placeholder(w) + rest == ['{'] + (['{'] + ((w + ['}', '}']) + rest))
  {}

  /** For one word as key the two ways agree on every template and every value. */
  lemma {:induction false} OneKeyAgrees(s: string, key: string, value: string)
    requires IsWord(key)
    ensures Scan(s, Placeholder(key), value) == ResolveTemplate(s, map[key := value])
    decreases |s|
  {
    if s != "" {
      match MatchHead(s)
      case None =>
        if Placeholder(key) <= s {
          PrefixIsMatch(s, key);
        }
        OneKeyAgrees(s[1..], key, value);
      case Some(w) =>
        MatchSplits(s);
        var rest := s[|w| + 4..];
        OneKeyAgrees(rest, key, value);
        ResolveMatch(w, rest, map[key := value]);
        if w == key {
          ScanHere(Placeholder(key), rest, value);
        } else {
          ScanOther(w, rest, key, value);
        }
    }
  }

  // ------------------------------------------------------------------ filters

  datatype Filter = Absent | Unparsable | Parsed(wanted: Payload)

  /** All wanted entries are in the payload, with equal values. */
  ghost predicate Matches(wanted: Payload, payload: Payload) {
    forall k :: k in wanted ==> k in payload && payload[k] == wanted[k]
  }

  /** Whether the action runs for the event. */
  ghost predicate Fires(filter: Filter, payload: Payload) {
    filter.Absent? || (filter.Parsed? && Matches(filter.wanted, payload))
  }

  /** Whether the dry run reports a match. */
  ghost predicate ReportsMatch(filter: Filter, payload: Payload) {
    filter.Parsed? ==> Matches(filter.wanted, payload)
  }

  /** The dry run is right about the filter exactly when the filter can be parsed: one that
      cannot never fires, and is reported as a match. */
  lemma FilterReportIsRightIff(filter: Filter, payload: Payload)
    ensures (Fires(filter, payload) <==> ReportsMatch(filter, payload)) <==> !filter.Unparsable?
  {}

  method MatchesFilter(filter: Filter, payload: Payload, order: seq<string>) returns (r: bool)
    requires filter.Parsed? ==> Enumerates(order, filter.wanted)
    ensures r <==> Fires(filter, payload)
  {
    if filter.Absent? {
      return true;
    }
    if filter.Unparsable? {
      return false;
    }
    for i := 0 to |order|
      invariant forall j :: 0 <= j < i ==> order[j] in payload && payload[order[j]] == filter.wanted[order[j]]
    {
      if order[i] !in payload {
        return false;
      }
      if payload[order[i]] != filter.wanted[order[i]] {
        return false;
      }
    }
    return true;
  }

  /** The check of the dry run. */
  method TestFilter(filter: Filter, payload: Payload, order: seq<string>) returns (filterMatch: bool)
    requires filter.Parsed? ==> Enumerates(order, filter.wanted)
    ensures filterMatch <==> ReportsMatch(filter, payload)
  {
    filterMatch := true;
    if filter.Parsed? {
      for i := 0 to |order|
        invariant filterMatch
        invariant forall j :: 0 <= j < i ==> order[j] in payload && payload[order[j]] == filter.wanted[order[j]]
      {
        if order[i] !in payload || payload[order[i]] != filter.wanted[order[i]] {
          filterMatch := false;
          break;
        }
      }
    }
  }
}
