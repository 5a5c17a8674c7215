/** brain/messages.go: the whole of a pruned history, message by message. Between two
    neighbouring messages that are kept stands one report of the tool calls that fell away
    there, or nothing when there is nothing to report. */
module HistoryReports {
  import opened Text
  import opened History
  import opened HistoryShape

  /** The calls of the replies from position lo up to, but not at, position hi. */
  function CallsIn(c: seq<Message>, lo: nat, hi: nat): seq<ToolCall>
    requires lo <= hi <= |c|
    decreases hi - lo
  {
    if lo == hi then [] else (if c[lo].role == Assistant then c[lo].toolCalls else []) + CallsIn(c, lo + 1, hi)
  }

  /** What there is to say about the calls, in order. */
  function Notes(calls: seq<ToolCall>, summarize: Summarizer): seq<string> {
    if calls == [] then []
    else (if summarize(calls[0]) == "" then [] else [summarize(calls[0])]) + Notes(calls[1..], summarize)
  }

  /** Separated by commas. */
  function Listed(notes: seq<string>): string
    requires notes != []
  {
    if |notes| == 1 then notes[0] else Listed(Front(notes)) + ", " + Last(notes)
  }

  /** One message with all notes on the calls between positions a and b, none without notes. */
  function Report(c: seq<Message>, a: nat, b: nat, summarize: Summarizer): seq<Message>
    requires a < b <= |c|
  {
    var notes := Notes(CallsIn(c, a + 1, b), summarize);
    if notes == [] then [] else [Message(User, "[Progress] " + Listed(notes), [], "")]
  }

  ghost predicate Ascend(stops: seq<nat>, a: nat, b: nat) {
    && (forall j, k :: 0 <= j < k < |stops| ==> stops[j] < stops[k])
    && forall k :: 0 <= k < |stops| ==> a < stops[k] < b
  }

  /** What comes after the message at a and before the one at b, with the messages at the
      stops kept. */
  function Laid(c: seq<Message>, a: nat, stops: seq<nat>, b: nat, summarize: Summarizer): seq<Message>
    requires a < b <= |c| && Ascend(stops, a, b)
    decreases |stops|
  {
    if stops == [] then Report(c, a, b, summarize)
    else
      Report(c, a, stops[0], summarize) + ([c[stops[0]]] + Laid(c, stops[0], stops[1..], b, summarize))
  }

  // ------------------------------------------------------------ the notes

  lemma {:induction false} NotesConcat(a: seq<ToolCall>, b: seq<ToolCall>, summarize: Summarizer)
    ensures Notes(a + b, summarize) == Notes(a, summarize) + Notes(b, summarize)
    decreases |a|
  {
    if a == [] {
      assert a + b == b;
    } else {
      assert (a + b)[1..] == a[1..] + b;
      NotesConcat(a[1..], b, summarize);
    }
  }

  lemma {:induction false} SummariesAreNotes(calls: seq<ToolCall>, summarize: Summarizer)
    ensures Summaries(calls, summarize) == Notes(calls, summarize)
    decreases |calls|
  {
    if calls != [] {
      var last := [Last(calls)];
      SummariesAreNotes(Front(calls), summarize);
      assert calls == Front(calls) + last;
      NotesConcat(Front(calls), last, summarize);
      assert last[1..] == [];
    }
  }

  lemma {:induction false} CallsInSnoc(c: seq<Message>, lo: nat, hi: nat)
    requires lo <= hi < |c|
    ensures CallsIn(c, lo, hi + 1) == CallsIn(c, lo, hi) + if c[hi].role == Assistant then c[hi].toolCalls else []
    decreases hi - lo
  {
    if lo < hi {
      CallsInSnoc(c, lo + 1, hi);
    }
  }

  /** One more message before the cut adds its own notes. */
  lemma NotesGrow(c: seq<Message>, lo: nat, hi: nat, summarize: Summarizer)
    requires lo <= hi < |c|
    ensures Notes(CallsIn(c, lo, hi + 1), summarize) ==
            Notes(CallsIn(c, lo, hi), summarize) + SummariesOf(c[hi], summarize)
  {
    CallsInSnoc(c, lo, hi);
    var own := if c[hi].role == Assistant then c[hi].toolCalls else [];
    NotesConcat(CallsIn(c, lo, hi), own, summarize);
    SummariesAreNotes(own, summarize);
  }

  lemma {:induction false} JoinFront(parts: seq<string>, last: string)
    requires parts != []
    ensures Join(parts + [last], ", ") == Join(parts, ", ") + ", " + last
    decreases |parts|
  {
    var all := parts + [last];
    if |parts| == 1 {
      assert all[1..] == [last];
    } else {
      JoinFront(parts[1..], last);
      assert all[1..] == parts[1..] + [last];
      assert parts[0] + ", " + (Join(parts[1..], ", ") + ", " + last) ==
             (parts[0] + ", " + Join(parts[1..], ", ")) + ", " + last;
    }
  }

  lemma {:induction false} JoinIsListed(notes: seq<string>)
    requires notes != []
    ensures Join(notes, ", ") == Listed(notes)
    decreases |notes|
  {
    if |notes| > 1 {
      JoinIsListed(Front(notes));
      JoinFront(Front(notes), Last(notes));
      assert notes == Front(notes) + [Last(notes)];
    }
  }

  lemma FlushIsReport(c: seq<Message>, a: nat, b: nat, summarize: Summarizer)
    requires a < b <= |c|
    ensures Flush(Notes(CallsIn(c, a + 1, b), summarize)) == Report(c, a, b, summarize)
  {
    var notes := Notes(CallsIn(c, a + 1, b), summarize);
    if notes != [] {
      JoinIsListed(notes);
    }
  }

  // ------------------------------------------------------------- the middle

  lemma AscendOn(stops: seq<nat>, a: nat, lo: nat, hi: nat)
    requires a < lo < hi && Ascend(stops, lo, hi)
    ensures Ascend([lo] + stops, a, hi)
  {}

  lemma LaidStop(c: seq<Message>, a: nat, lo: nat, stops: seq<nat>, hi: nat, summarize: Summarizer)
    requires a < lo < hi <= |c| && Ascend(stops, lo, hi)
    ensures Ascend([lo] + stops, a, hi)
    ensures Laid(c, a, [lo] + stops, hi, summarize)
            == Report(c, a, lo, summarize) + [c[lo]] + Laid(c, lo, stops, hi, summarize)
  {
    AscendOn(stops, a, lo, hi);
    LaidFirst(c, a, [lo] + stops, hi, summarize);
    assert ([lo] + stops)[1..] == stops;
  }

  lemma LaidFirst(c: seq<Message>, a: nat, stops: seq<nat>, hi: nat, summarize: Summarizer)
    requires a < hi <= |c| && Ascend(stops, a, hi) && stops != []
    ensures Ascend(stops[1..], stops[0], hi)
    ensures Laid(c, a, stops, hi, summarize)
            == Report(c, a, stops[0], summarize) + [c[stops[0]]] + Laid(c, stops[0], stops[1..], hi, summarize)
  {}

  /** The zone is laid out between its kept positions. */
  lemma {:induction false} ZoneIsLaid(c: seq<Message>, a: nat, lo: nat, hi: nat, kept: set<nat>, parts: seq<string>,
                                      summarize: Summarizer)
    returns (stops: seq<nat>)
    requires a < lo <= hi <= |c| && parts == Notes(CallsIn(c, a + 1, lo), summarize)
    ensures Ascend(stops, a, hi) && forall i: nat :: i in stops <==> lo <= i < hi && i in kept
    ensures Zone(c, lo, hi, kept, parts, summarize) == Laid(c, a, stops, hi, summarize)
    decreases hi - lo
  {
    if lo == hi {
      FlushIsReport(c, a, lo, summarize);
      stops := [];
    } else if lo in kept {
      FlushIsReport(c, a, lo, summarize);
      assert CallsIn(c, lo + 1, lo + 1) == [];
      stops := ZoneIsLaid(c, lo, lo + 1, hi, kept, [], summarize);
      LaidStop(c, a, lo, stops, hi, summarize);
      forall i: nat ensures i in [lo] + stops <==> i == lo || i in stops {}
      stops := [lo] + stops;
    } else {
      NotesGrow(c, a + 1, lo, summarize);
      stops := ZoneIsLaid(c, a, lo + 1, hi, kept, parts + SummariesOf(c[lo], summarize), summarize);
    }
  }

  // ------------------------------------------------------------ the anchors

  /** How many anchors stand behind the first message and before position i. */
  function AnchorsBefore(c: seq<Message>, i: nat): nat
    requires i <= |c|
  {
    |set j: nat | 1 <= j < i && IsAnchor(c[j])|
  }

  lemma {:induction false} RankCounts(c: seq<Message>, i: nat)
    requires i <= |c|
    ensures Rank(c, i) == AnchorsBefore(c, i)
    decreases i
  {
    if i > 0 {
      RankCounts(c, i - 1);
      var before := set j: nat | 1 <= j < i - 1 && IsAnchor(c[j]);
      assert (set j: nat | 1 <= j < i && IsAnchor(c[j])) ==
             before + if i > 1 && IsAnchor(c[i - 1]) then {i - 1} else {};
    }
  }

  /** The anchors that are kept of those before the cut: the earliest 14 and a third of their
      number, but no more than 24. */
  predicate Stays(c: seq<Message>, cut: nat, i: nat)
    requires i < cut <= |c|
  {
    var n := AnchorsBefore(c, cut);
    1 <= i && IsAnchor(c[i]) && AnchorsBefore(c, i) < 14 + n / 3 && AnchorsBefore(c, i) < 24
  }

  lemma KeptStays(c: seq<Message>, cut: nat, i: nat)
    requires i < cut <= |c|
    ensures i in KeptSet(c, cut) <==> Stays(c, cut, i)
  {
    RankCounts(c, i);
    RankCounts(c, cut);
    KeptAreAnchors(c, cut);
    if 1 <= i && IsAnchor(c[i]) {
      AnchorKeptIff(c, i, cut);
    }
  }

  // ------------------------------------------------------------- the result

  /** Where the window begins: maxRecent messages before the end, or earlier where results of
      a reply would come first. */
  ghost predicate WindowStart(c: seq<Message>, cut: nat, start: nat) {
    && 1 <= start <= cut < |c|
    && (start > 1 ==> c[start].role != Tool)
    && forall k :: start < k <= cut ==> c[k].role == Tool
  }

  /** A pruned history is its first message, the anchors that stay and the window, with one
      report in each gap where calls with something to say fell away. A history that fits
      the window is not touched, and one that fits it without its stale contexts loses these. */
  lemma PrunedIsLaidOut(ms: seq<Message>, maxRecent: nat, summarize: Summarizer)
    returns (start: nat, stops: seq<nat>)
    requires maxRecent >= 1
    ensures |ms| <= maxRecent + 1 ==> Pruned(ms, maxRecent, summarize) == ms
    ensures |ms| > maxRecent + 1 >= |Cleaned(ms)| ==> Pruned(ms, maxRecent, summarize) == Cleaned(ms)
    ensures |ms| > maxRecent + 1 && |Cleaned(ms)| > maxRecent + 1 ==>
      var c := Cleaned(ms);
      var cut := |c| - maxRecent;
      && WindowStart(c, cut, start)
      && Ascend(stops, 0, start) && (forall i: nat :: i < start ==> (i in stops <==> Stays(c, cut, i)))
      && Pruned(ms, maxRecent, summarize) == [c[0]] + Laid(c, 0, stops, start, summarize) + c[start..]
  {
    start, stops := 0, [];
    if Prunes(ms, maxRecent) {
      var c := Cleaned(ms);
      var cut := |c| - maxRecent;
      start := CutStart(c, cut);
      assert CallsIn(c, 1, 1) == [];
      stops := ZoneIsLaid(c, 0, 1, start, KeptSet(c, cut), [], summarize);
      forall i: nat | i < start ensures i in stops <==> Stays(c, cut, i) {
        KeptStays(c, cut, i);
      }
    }
  }
}
