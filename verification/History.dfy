/** brain/messages.go: the conversation history and its pruning. */
module History {
  import opened Wrappers
  import opened Text

  datatype Role = System | User | Assistant | Tool
  datatype ToolCall = ToolCall(id: string, name: string, arguments: string)
  datatype Message = Message(role: Role, content: string, toolCalls: seq<ToolCall>, toolCallId: string)

  const PAGE_CTX := "[PAGE_CTX]"
  const ANCHOR := "[ANCHOR]"
  const PROGRESS := "[Progress] "

  function UserMessage(content: string): Message { Message(User, content, [], "") }

  predicate IsPageCtx(m: Message) { m.role == User && PAGE_CTX <= m.content }
  predicate IsAnchor(m: Message) { m.role == User && ANCHOR <= m.content }
  predicate IsBlank(m: Message) { m.role == User && m.content == "" }

  // ----------------------------------------------------- answered tool calls

  function Ids(calls: seq<ToolCall>): (ids: seq<string>)
    ensures |ids| == |calls|
  {
    if calls == [] then [] else Ids(Front(calls)) + [Last(calls).id]
  }

  /** The calls still to be answered after m, given those before it; None when m is a
      result nobody waits for, or a reply that comes before all results. With `tight`, user
      messages may not come between a reply and its results either. */
  function Feed(p: Option<seq<string>>, m: Message, tight: bool): Option<seq<string>> {
    if p.None? then None
    else match m.role
      case Assistant => if p.value == [] then Some(Ids(m.toolCalls)) else None
      case Tool => if p.value != [] && p.value[0] == m.toolCallId then Some(p.value[1..]) else None
      case _ => if tight && p.value != [] then None else p
  }

  function FeedAll(p: Option<seq<string>>, ms: seq<Message>, tight: bool): Option<seq<string>> {
    if ms == [] then p else Feed(FeedAll(p, Front(ms), tight), Last(ms), tight)
  }

  const NOTHING: Option<seq<string>> := Some([])

  /** Every tool result answers the next open call of the last reply, and every call is answered. */
  predicate WellFormed(ms: seq<Message>) { FeedAll(NOTHING, ms, false) == NOTHING }

  /** The same, with each reply directly followed by all its results. */
  predicate Tight(ms: seq<Message>) { FeedAll(NOTHING, ms, true) == NOTHING }

  lemma {:induction false} FeedConcat(p: Option<seq<string>>, a: seq<Message>, b: seq<Message>, tight: bool)
    ensures FeedAll(p, a + b, tight) == FeedAll(FeedAll(p, a, tight), b, tight)
    decreases |b|
  {
    if b == [] {
      assert a + b == a;
    } else {
      assert Front(a + b) == a + Front(b);
      FeedConcat(p, a, Front(b), tight);
    }
  }

  lemma FeedOne(p: Option<seq<string>>, m: Message, tight: bool)
    ensures FeedAll(p, [m], tight) == Feed(p, m, tight)
  {
    assert Front([m]) == [];
  }

  lemma FeedSnoc(p: Option<seq<string>>, ms: seq<Message>, m: Message, tight: bool)
    ensures FeedAll(p, ms + [m], tight) == Feed(FeedAll(p, ms, tight), m, tight)
  {
    assert Front(ms + [m]) == ms;
  }

  lemma {:induction false} FeedNone(ms: seq<Message>, tight: bool)
    ensures FeedAll(None, ms, tight) == None
    decreases |ms|
  {
    if ms != [] {
      FeedNone(Front(ms), tight);
    }
  }

  lemma {:induction false} TightIsLoose(p: Option<seq<string>>, ms: seq<Message>)
    requires FeedAll(p, ms, true).Some?
    ensures FeedAll(p, ms, false) == FeedAll(p, ms, true)
    decreases |ms|
  {
    if ms != [] {
      TightIsLoose(p, Front(ms));
    }
  }

  lemma TightIsWellFormed(ms: seq<Message>)
    requires Tight(ms)
    ensures WellFormed(ms)
  {
    TightIsLoose(NOTHING, ms);
  }

  predicate Bystander(m: Message) { m.role == User || m.role == System }

  lemma {:induction false} BystandersFeedNothing(ms: seq<Message>, tight: bool)
    requires forall k :: 0 <= k < |ms| ==> Bystander(ms[k])
    ensures FeedAll(NOTHING, ms, tight) == NOTHING
    decreases |ms|
  {
    if ms != [] {
      BystandersFeedNothing(Front(ms), tight);
    }
  }

  // What well-formedness means, in terms of the two lists of identifiers.

  function CallIds(ms: seq<Message>): seq<string> {
    if ms == [] then []
    else CallIds(Front(ms)) + if Last(ms).role == Assistant then Ids(Last(ms).toolCalls) else []
  }

  function ResultIds(ms: seq<Message>): seq<string> {
    if ms == [] then []
    else ResultIds(Front(ms)) + if Last(ms).role == Tool then [Last(ms).toolCallId] else []
  }

  /** Result number n answers call number n, which comes before it, and a new reply comes
      only when all earlier calls are answered. */
  ghost predicate PairedAt(ms: seq<Message>, k: nat)
    requires k < |ms|
  {
    && (ms[k].role == Tool ==> ResultIds(ms[..k]) + [ms[k].toolCallId] <= CallIds(ms[..k]))
    && (ms[k].role == Assistant ==> ResultIds(ms[..k]) == CallIds(ms[..k]))
  }

  ghost predicate Paired(ms: seq<Message>) { forall k: nat :: k < |ms| ==> PairedAt(ms, k) }

  lemma PairedSnoc(ms: seq<Message>)
    requires ms != []
    ensures Paired(ms) <==> Paired(Front(ms)) && PairedAt(ms, |ms| - 1)
  {
    forall k: nat | k < |ms| - 1 ensures PairedAt(ms, k) <==> PairedAt(Front(ms), k) {
      assert Front(ms)[..k] == ms[..k];
    }
  }

  lemma {:induction false} FeedMeansPaired(ms: seq<Message>)
    ensures FeedAll(NOTHING, ms, false).Some? <==> Paired(ms)
    ensures Paired(ms) ==> CallIds(ms) == ResultIds(ms) + FeedAll(NOTHING, ms, false).value
    decreases |ms|
  {
    if ms != [] {
      FeedMeansPaired(Front(ms));
      PairedSnoc(ms);
      var p := FeedAll(NOTHING, Front(ms), false);
      assert ms[..|ms| - 1] == Front(ms);
      if p.Some? && Last(ms).role == Tool {
        var calls, results, id := CallIds(Front(ms)), ResultIds(Front(ms)), Last(ms).toolCallId;
        if p.value != [] {
          assert calls[|results|] == p.value[0];
          assert p.value == [p.value[0]] + p.value[1..];
        }
        if results + [id] <= calls {
          assert (results + [id])[|results|] == calls[|results|];
        }
      }
    }
  }

  /** Well-formed histories are those in which calls and results pair up one to one in order. */
  lemma WellFormedIffPaired(ms: seq<Message>)
    ensures WellFormed(ms) <==> Paired(ms) && CallIds(ms) == ResultIds(ms)
  {
    FeedMeansPaired(ms);
    if Paired(ms) && CallIds(ms) == ResultIds(ms) {
      var p := FeedAll(NOTHING, ms, false).value;
      assert |ResultIds(ms) + p| == |ResultIds(ms)|;
    }
  }

  // ------------------------------------------------------ stale page contexts

  function LatestPageCtx(ms: seq<Message>): (i: int)
    ensures -1 <= i < |ms|
    ensures i >= 0 ==> IsPageCtx(ms[i])
    ensures forall k :: i < k < |ms| ==> !IsPageCtx(ms[k])
  {
    if ms == [] then -1 else if IsPageCtx(Last(ms)) then |ms| - 1 else LatestPageCtx(Front(ms))
  }

  /** Page contexts before `latest` lose their content. */
  function Blanked(ms: seq<Message>, latest: int): seq<Message> {
    seq(|ms|, i requires 0 <= i < |ms| => if i < latest && IsPageCtx(ms[i]) then UserMessage("") else ms[i])
  }

  function NonBlank(ms: seq<Message>): seq<Message> {
    if ms == [] then [] else NonBlank(Front(ms)) + if IsBlank(Last(ms)) then [] else [Last(ms)]
  }

  /** The history without stale page contexts; blank user messages go with them. */
  function Cleaned(ms: seq<Message>): seq<Message> {
    var latest := LatestPageCtx(ms);
    if latest > 0 then NonBlank(Blanked(ms, latest)) else ms
  }

  // ---------------------------------------------------------------- anchors

  /** Positions of the anchors in 1..hi-1, ascending. */
  function Anchors(ms: seq<Message>, hi: nat): seq<nat>
    requires hi <= |ms|
  {
    if hi <= 1 then [] else Anchors(ms, hi - 1) + if IsAnchor(ms[hi - 1]) then [hi - 1] else []
  }

  function Budget(n: nat): nat { if 14 + n / 3 > 24 then 24 else 14 + n / 3 }

  /** The earliest anchors, as many as the budget allows. */
  function KeptAnchors(ms: seq<Message>, hi: nat): seq<nat>
    requires hi <= |ms|
  {
    var all := Anchors(ms, hi);
    if |all| > Budget(|all|) then all[..Budget(|all|)] else all
  }

  /** Back from i over tool results, but not before position 1. */
  function CutStart(ms: seq<Message>, i: nat): (start: nat)
    requires i < |ms|
    ensures start <= i && (i >= 1 ==> start >= 1)
    ensures start > 1 ==> ms[start].role != Tool
    ensures forall k :: start < k <= i ==> ms[k].role == Tool
  {
    if i > 1 && ms[i].role == Tool then CutStart(ms, i - 1) else i
  }

  // ----------------------------------------------------------- summary zone

  type Summarizer = ToolCall -> string

  function Summaries(calls: seq<ToolCall>, summarize: Summarizer): seq<string> {
    if calls == [] then []
    else Summaries(Front(calls), summarize) + if summarize(Last(calls)) == "" then [] else [summarize(Last(calls))]
  }

  function SummariesOf(m: Message, summarize: Summarizer): seq<string> {
    if m.role == Assistant then Summaries(m.toolCalls, summarize) else []
  }

  function Flush(parts: seq<string>): seq<Message> {
    if parts == [] then [] else [UserMessage(PROGRESS + Join(parts, ", "))]
  }

  /** The middle from lo to hi: kept anchors, and summaries of the tool calls between them. */
  function Zone(ms: seq<Message>, lo: nat, hi: nat, kept: set<nat>, parts: seq<string>,
                summarize: Summarizer): seq<Message>
    requires lo <= hi <= |ms|
    decreases hi - lo
  {
    if lo == hi then Flush(parts)
    else if lo in kept then Flush(parts) + [ms[lo]] + Zone(ms, lo + 1, hi, kept, [], summarize)
    else Zone(ms, lo + 1, hi, kept, parts + SummariesOf(ms[lo], summarize), summarize)
  }

  function AsSet(s: seq<nat>): set<nat> { set i: nat | i in s }

  function KeptSet(ms: seq<Message>, hi: nat): set<nat>
    requires hi <= |ms|
  {
    AsSet(KeptAnchors(ms, hi))
  }

  /** The condensed middle: everything between the first message and the window. */
  function Middle(c: seq<Message>, maxRecent: nat, summarize: Summarizer): seq<Message>
    requires 1 <= maxRecent < |c|
  {
    Zone(c, 1, CutStart(c, |c| - maxRecent), KeptSet(c, |c| - maxRecent), [], summarize)
  }

  /** The pruned form of a cleaned history that is longer than the window. */
  function Condensed(c: seq<Message>, maxRecent: nat, summarize: Summarizer): seq<Message>
    requires maxRecent >= 1 && |c| > maxRecent + 1
  {
    [c[0]] + Middle(c, maxRecent, summarize) + c[CutStart(c, |c| - maxRecent)..]
  }

  /** Both the history and its cleaned form exceed the window. */
  predicate Prunes(ms: seq<Message>, maxRecent: nat) {
    |ms| > maxRecent + 1 && |Cleaned(ms)| > maxRecent + 1
  }

  function Pruned(ms: seq<Message>, maxRecent: nat, summarize: Summarizer): seq<Message>
    requires maxRecent >= 1
  {
    if |ms| <= maxRecent + 1 then ms
    else if Prunes(ms, maxRecent) then Condensed(Cleaned(ms), maxRecent, summarize)
    else Cleaned(ms)
  }

  // ---------------------------------------------------------------- methods

  method RemoveStale(input: seq<Message>) returns (messages: seq<Message>)
    ensures messages == Cleaned(input)
  {
    messages := input;
    var latest := -1;
    var i := |messages|;
    while i > 0
      invariant 0 <= i <= |messages| == |input|
      invariant latest == -1 ==> forall k :: i <= k < |input| ==> !IsPageCtx(input[k])
      invariant latest != -1 ==> i <= latest == LatestPageCtx(input)
      invariant forall k :: 0 <= k < i ==> messages[k] == input[k]
      invariant forall k :: i <= k < |input| ==>
                  messages[k] == if k < latest && IsPageCtx(input[k]) then UserMessage("") else input[k]
    {
      i := i - 1;
      if messages[i].role == User && PAGE_CTX <= messages[i].content {
        if latest == -1 {
          latest := i;
          assert LatestPageCtx(input) == i;
        } else {
          messages := messages[i := UserMessage("")];
        }
      }
    }
    assert latest == LatestPageCtx(input);
    assert messages == Blanked(input, latest);
    if latest > 0 {
      var cleaned := [];
      for k := 0 to |messages|
        invariant cleaned == NonBlank(messages[..k])
      {
        assert Front(messages[..k + 1]) == messages[..k];
        if messages[k].content != "" || messages[k].role != User {
          cleaned := cleaned + [messages[k]];
        }
      }
      assert messages[..|messages|] == messages;
      messages := cleaned;
    } else {
      assert messages == input;
    }
  }

  method FindAnchors(messages: seq<Message>, hi: nat) returns (kept: set<nat>)
    requires 1 <= hi <= |messages|
    ensures kept == KeptSet(messages, hi)
  {
    var anchors := [];
    for i := 1 to hi
      invariant anchors == Anchors(messages, i)
    {
      if IsAnchor(messages[i]) {
        anchors := anchors + [i];
      }
    }
    var maxAnchors := 14 + |anchors| / 3;
    if maxAnchors > 24 {
      maxAnchors := 24;
    }
    if |anchors| > maxAnchors {
      anchors := anchors[..maxAnchors];
    }
    kept := AsSet(anchors);
  }

  method Summarize(calls: seq<ToolCall>, summarize: Summarizer) returns (parts: seq<string>)
    ensures parts == Summaries(calls, summarize)
  {
    parts := [];
    for i := 0 to |calls|
      invariant parts == Summaries(calls[..i], summarize)
    {
      assert Front(calls[..i + 1]) == calls[..i];
      var summary := summarize(calls[i]);
      if summary != "" {
        parts := parts + [summary];
      }
    }
    assert calls[..|calls|] == calls;
  }

  /** Append the pending summaries, if any, as one progress message. */
  method FlushInto(pruned: seq<Message>, parts: seq<string>) returns (r: seq<Message>)
    ensures r == pruned + Flush(parts)
  {
    r := pruned;
    if |parts| > 0 {
      r := r + [UserMessage(PROGRESS + Join(parts, ", "))];
    }
  }

  method BuildZone(messages: seq<Message>, recentStart: nat, kept: set<nat>, summarize: Summarizer)
    returns (zone: seq<Message>)
    requires 1 <= recentStart <= |messages|
    ensures zone == Zone(messages, 1, recentStart, kept, [], summarize)
  {
    zone := [];
    var parts: seq<string> := [];
    ghost var rest := Zone(messages, 1, recentStart, kept, [], summarize);
    ghost var goal := rest;
    for idx := 1 to recentStart
      invariant rest == Zone(messages, idx, recentStart, kept, parts, summarize)
      invariant zone + rest == goal
    {
      if idx in kept {
        ghost var next := Zone(messages, idx + 1, recentStart, kept, [], summarize);
        assert zone + rest == zone + Flush(parts) + [messages[idx]] + next;
        zone := FlushInto(zone, parts);
        parts := [];
        zone := zone + [messages[idx]];
        rest := next;
        continue;
      }
      if messages[idx].role == Assistant {
        var more := Summarize(messages[idx].toolCalls, summarize);
        parts := parts + more;
      } else {
        assert parts + [] == parts;
      }
    }
    zone := FlushInto(zone, parts);
  }

  method PruneMessages(input: seq<Message>, maxRecent: nat, summarize: Summarizer) returns (pruned: seq<Message>)
    requires maxRecent >= 1
    ensures pruned == Pruned(input, maxRecent, summarize)
  {
    if |input| <= maxRecent + 1 {
      return input;
    }
    var messages := RemoveStale(input);
    var total := |messages|;
    if total <= maxRecent + 1 {
      return messages;
    }
    var kept := FindAnchors(messages, total - maxRecent);
    var recentStart := total - maxRecent;
    while recentStart > 1 && messages[recentStart].role == Tool
      invariant 1 <= recentStart < total
      invariant CutStart(messages, recentStart) == CutStart(messages, total - maxRecent)
    {
      recentStart := recentStart - 1;
    }
    var zone := BuildZone(messages, recentStart, kept, summarize);
    pruned := [messages[0]] + zone + messages[recentStart..];
  }

  // ------------------------------------------------- what pruning preserves

  lemma {:induction false} BlankingFeedsSame(p: Option<seq<string>>, ms: seq<Message>, latest: int, tight: bool)
    requires FeedAll(p, ms, tight).Some?
    ensures FeedAll(p, NonBlank(Blanked(ms, latest)), tight) == FeedAll(p, ms, tight)
    decreases |ms|
  {
    if ms != [] {
      BlankingFeedsSame(p, Front(ms), latest, tight);
      var b := Blanked(ms, latest);
      assert Front(b) == Blanked(Front(ms), latest);
      var rest := NonBlank(Front(b));
      if IsBlank(Last(b)) {
        assert NonBlank(b) == rest && Last(ms).role == User;
      } else {
        assert NonBlank(b) == rest + [Last(ms)];
        FeedSnoc(p, rest, Last(ms), tight);
      }
    }
  }

  /** Removing stale contexts takes only user messages away. */
  lemma CleaningFeedsSame(ms: seq<Message>, tight: bool)
    requires FeedAll(NOTHING, ms, tight).Some?
    ensures FeedAll(NOTHING, Cleaned(ms), tight) == FeedAll(NOTHING, ms, tight)
  {
    BlankingFeedsSame(NOTHING, ms, LatestPageCtx(ms), tight);
  }

  predicate PlainStart(ms: seq<Message>) {
    ms != [] && ms[0].role == User && !IsBlank(ms[0]) && !IsPageCtx(ms[0])
  }

  lemma {:induction false} NonBlankKeepsFirst(ms: seq<Message>)
    requires ms != [] && !IsBlank(ms[0])
    ensures NonBlank(ms) != [] && NonBlank(ms)[0] == ms[0]
    decreases |ms|
  {
    if |ms| > 1 {
      NonBlankKeepsFirst(Front(ms));
    }
  }

  lemma CleanedKeepsFirst(ms: seq<Message>)
    requires PlainStart(ms)
    ensures Cleaned(ms) != [] && Cleaned(ms)[0] == ms[0]
  {
    var latest := LatestPageCtx(ms);
    if latest > 0 {
      NonBlankKeepsFirst(Blanked(ms, latest));
    }
  }

  /** The first message survives every prune, unless it is itself blank or a page context. */
  lemma PruneKeepsFirst(ms: seq<Message>, maxRecent: nat, summarize: Summarizer)
    requires PlainStart(ms) && maxRecent >= 1
    ensures Pruned(ms, maxRecent, summarize) != [] && Pruned(ms, maxRecent, summarize)[0] == ms[0]
  {
    CleanedKeepsFirst(ms);
  }

  predicate AllUser(ms: seq<Message>) { forall k :: 0 <= k < |ms| ==> ms[k].role == User }

  lemma {:induction false} ZoneIsUser(ms: seq<Message>, lo: nat, hi: nat, kept: set<nat>, parts: seq<string>,
                                      summarize: Summarizer)
    requires lo <= hi <= |ms|
    requires forall i :: i in kept && i < |ms| ==> ms[i].role == User
    ensures AllUser(Zone(ms, lo, hi, kept, parts, summarize))
    decreases hi - lo
  {
    if lo < hi {
      if lo in kept {
        ZoneIsUser(ms, lo + 1, hi, kept, [], summarize);
      } else {
        ZoneIsUser(ms, lo + 1, hi, kept, parts + SummariesOf(ms[lo], summarize), summarize);
      }
    }
  }

  lemma {:induction false} AnchorsAreAnchors(ms: seq<Message>, hi: nat)
    requires hi <= |ms|
    ensures forall k :: 0 <= k < |Anchors(ms, hi)| ==> 1 <= Anchors(ms, hi)[k] < hi && IsAnchor(ms[Anchors(ms, hi)[k]])
    ensures forall j, k :: 0 <= j < k < |Anchors(ms, hi)| ==> Anchors(ms, hi)[j] < Anchors(ms, hi)[k]
    decreases hi
  {
    if hi > 1 {
      AnchorsAreAnchors(ms, hi - 1);
    }
  }

  lemma KeptAreAnchors(ms: seq<Message>, hi: nat)
    requires hi <= |ms|
    ensures forall i :: i in KeptSet(ms, hi) ==> 1 <= i < hi && IsAnchor(ms[i])
  {
    AnchorsAreAnchors(ms, hi);
  }

  /** From an open group, and from nothing, the same messages cannot both be answered. */
  lemma {:induction false} NoTwoStarts(q: seq<string>, ms: seq<Message>)
    requires FeedAll(Some(q), ms, false) == NOTHING && FeedAll(NOTHING, ms, false) == NOTHING
    ensures q == []
    decreases |ms|
  {
    if ms != [] {
      assert ms == [ms[0]] + ms[1..];
      FeedConcat(Some(q), [ms[0]], ms[1..], false);
      FeedConcat(NOTHING, [ms[0]], ms[1..], false);
      FeedOne(Some(q), ms[0], false);
      FeedOne(NOTHING, ms[0], false);
      FeedNone(ms[1..], false);
      if Bystander(ms[0]) {
        NoTwoStarts(q, ms[1..]);
      }
    }
  }

  /** The calls still open where the window is cut. */
  function OpenAtCut(c: seq<Message>, maxRecent: nat, tight: bool): Option<seq<string>>
    requires 1 <= maxRecent < |c|
  {
    FeedAll(NOTHING, c[..CutStart(c, |c| - maxRecent)], tight)
  }

  lemma UserHeadFeeds(first: Message, zone: seq<Message>, window: seq<Message>, tight: bool)
    requires first.role == User && AllUser(zone)
    ensures FeedAll(NOTHING, [first] + zone + window, tight) == FeedAll(NOTHING, window, tight)
  {
    BystandersFeedNothing([first] + zone, tight);
    FeedConcat(NOTHING, [first] + zone, window, tight);
  }

  lemma MiddleIsUser(c: seq<Message>, maxRecent: nat, summarize: Summarizer)
    requires 1 <= maxRecent < |c|
    ensures AllUser(Middle(c, maxRecent, summarize))
  {
    var cut := |c| - maxRecent;
    KeptAreAnchors(c, cut);
    ZoneIsUser(c, 1, CutStart(c, cut), KeptSet(c, cut), [], summarize);
  }

  /** Only the window decides what the condensed history leaves open. */
  lemma CondensedFeeds(c: seq<Message>, maxRecent: nat, summarize: Summarizer, tight: bool)
    requires maxRecent >= 1 && |c| > maxRecent + 1 && c[0].role == User
    ensures FeedAll(NOTHING, Condensed(c, maxRecent, summarize), tight)
            == FeedAll(NOTHING, c[CutStart(c, |c| - maxRecent)..], tight)
  {
    MiddleIsUser(c, maxRecent, summarize);
    UserHeadFeeds(c[0], Middle(c, maxRecent, summarize), c[CutStart(c, |c| - maxRecent)..], tight);
  }

  lemma WholeFeeds(c: seq<Message>, maxRecent: nat, tight: bool)
    requires 1 <= maxRecent < |c|
    ensures FeedAll(NOTHING, c, tight)
            == FeedAll(OpenAtCut(c, maxRecent, tight), c[CutStart(c, |c| - maxRecent)..], tight)
  {
    var start := CutStart(c, |c| - maxRecent);
    assert c == c[..start] + c[start..];
    FeedConcat(NOTHING, c[..start], c[start..], tight);
  }

  /** Before a message that is not a result, a tight history has no open group. */
  lemma NoGroupBefore(head: seq<Message>, m: Message, tail: seq<Message>)
    requires FeedAll(NOTHING, head + ([m] + tail), true) == NOTHING && m.role != Tool
    ensures FeedAll(NOTHING, head, true) == NOTHING
  {
    var p := FeedAll(NOTHING, head, true);
    FeedConcat(NOTHING, head, [m] + tail, true);
    FeedConcat(p, [m], tail, true);
    FeedOne(p, m, true);
    FeedNone(tail, true);
  }

  /** In a tight history no group is open where the window is cut. */
  lemma TightCutIsClean(c: seq<Message>, maxRecent: nat)
    requires 1 <= maxRecent < |c| - 1 && c[0].role == User && Tight(c)
    ensures OpenAtCut(c, maxRecent, true) == NOTHING
  {
    var start := CutStart(c, |c| - maxRecent);
    if start == 1 {
      assert c[..1] == [c[0]];
      FeedOne(NOTHING, c[0], true);
    } else {
      assert c == c[..start] + ([c[start]] + c[start + 1..]);
      NoGroupBefore(c[..start], c[start], c[start + 1..]);
    }
  }

  lemma CondensedIsTight(c: seq<Message>, maxRecent: nat, summarize: Summarizer)
    requires maxRecent >= 1 && |c| > maxRecent + 1 && c[0].role == User && Tight(c)
    ensures Tight(Condensed(c, maxRecent, summarize))
  {
    CondensedFeeds(c, maxRecent, summarize, true);
    WholeFeeds(c, maxRecent, true);
    TightCutIsClean(c, maxRecent);
  }

  /** Pruning a tight history that begins with a plain user message gives a tight history. */
  lemma PruneKeepsTight(ms: seq<Message>, maxRecent: nat, summarize: Summarizer)
    requires maxRecent >= 1 && PlainStart(ms) && Tight(ms)
    ensures Tight(Pruned(ms, maxRecent, summarize))
  {
    CleaningFeedsSame(ms, true);
    CleanedKeepsFirst(ms);
    var c := Cleaned(ms);
    if |c| > maxRecent + 1 {
      CondensedIsTight(c, maxRecent, summarize);
    }
  }

  lemma CondensedIsWellFormedIff(c: seq<Message>, maxRecent: nat, summarize: Summarizer)
    requires maxRecent >= 1 && |c| > maxRecent + 1 && c[0].role == User && WellFormed(c)
    ensures WellFormed(Condensed(c, maxRecent, summarize)) <==> OpenAtCut(c, maxRecent, false) == NOTHING
  {
    CondensedFeeds(c, maxRecent, summarize, false);
    WholeFeeds(c, maxRecent, false);
    var window := c[CutStart(c, |c| - maxRecent)..];
    FeedNone(window, false);
    var p := OpenAtCut(c, maxRecent, false);
    if FeedAll(NOTHING, window, false) == NOTHING {
      NoTwoStarts(p.value, window);
    }
  }

  /** For well-formed histories in general, with user messages anywhere: the pruned history
      is well-formed exactly when no group is open where the window is cut. */
  lemma PruneKeepsWellFormedIff(ms: seq<Message>, maxRecent: nat, summarize: Summarizer)
    requires maxRecent >= 1 && PlainStart(ms) && WellFormed(ms)
    ensures WellFormed(Pruned(ms, maxRecent, summarize)) <==>
            (Prunes(ms, maxRecent) ==> OpenAtCut(Cleaned(ms), maxRecent, false) == NOTHING)
  {
    CleaningFeedsSame(ms, false);
    CleanedKeepsFirst(ms);
    var c := Cleaned(ms);
    if Prunes(ms, maxRecent) {
      CondensedIsWellFormedIff(c, maxRecent, summarize);
    }
  }
}
