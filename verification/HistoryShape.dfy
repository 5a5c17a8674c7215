/** What exactly is left of a history after pruning: where each message comes from,
    which anchors survive, and how long the result can be. */
module HistoryShape {
  import opened Wrappers
  import opened Text
  import opened History

  predicate IsProgress(m: Message) { m.role == User && PROGRESS <= m.content }

  const INSERTED := -1

  /** origin[k] is the position in c that message k of r was taken from, or INSERTED for a
      progress message; the positions taken increase, so nothing is repeated or reordered. */
  ghost predicate Traces(origin: seq<int>, c: seq<Message>, r: seq<Message>) {
    && |origin| == |r|
    && (forall k :: 0 <= k < |r| ==> origin[k] == INSERTED || 0 <= origin[k] < |c|)
    && (forall k :: 0 <= k < |r| ==> if origin[k] == INSERTED then IsProgress(r[k]) else r[k] == c[origin[k]])
    && (forall j, k :: 0 <= j < k < |r| && origin[j] != INSERTED && origin[k] != INSERTED ==> origin[j] < origin[k])
  }

  lemma FlushIsProgress(parts: seq<string>)
    ensures |Flush(parts)| <= 1
    ensures forall k :: 0 <= k < |Flush(parts)| ==> IsProgress(Flush(parts)[k])
  {}

  /** The positions of the middle that the zone takes over are the kept ones. */
  ghost predicate ZoneTraces(origin: seq<int>, c: seq<Message>, zone: seq<Message>, lo: nat, hi: nat, kept: set<nat>) {
    && Traces(origin, c, zone)
    && (forall k :: 0 <= k < |origin| && origin[k] != INSERTED ==> lo <= origin[k] < hi)
    && (forall i: nat :: lo <= i < hi ==> (i in origin <==> i in kept))
  }

  lemma PrependFlush(origin: seq<int>, c: seq<Message>, zone: seq<Message>, lo: nat, hi: nat, kept: set<nat>,
                     parts: seq<string>)
    returns (origin': seq<int>)
    requires ZoneTraces(origin, c, zone, lo, hi, kept)
    ensures ZoneTraces(origin', c, Flush(parts) + zone, lo, hi, kept)
  {
    FlushIsProgress(parts);
    if parts == [] {
      origin' := origin;
      assert Flush(parts) + zone == zone;
    } else {
      origin' := [INSERTED] + origin;
      forall i: nat | lo <= i < hi ensures i in origin' <==> i in kept {
        assert i in origin' <==> i in origin;
      }
    }
  }

  lemma PrependKept(origin: seq<int>, c: seq<Message>, zone: seq<Message>, lo: nat, hi: nat, kept: set<nat>)
    requires lo < hi <= |c| && lo in kept && ZoneTraces(origin, c, zone, lo + 1, hi, kept)
    ensures ZoneTraces([lo] + origin, c, [c[lo]] + zone, lo, hi, kept)
  {
    var origin' := [lo] + origin;
    forall i: nat | lo <= i < hi ensures i in origin' <==> i in kept {
      if i == lo {
        assert origin'[0] == i;
      } else {
        assert i in origin' <==> i in origin;
      }
    }
  }

  lemma PrependBoth(origin: seq<int>, c: seq<Message>, zone: seq<Message>, lo: nat, hi: nat, kept: set<nat>,
                    parts: seq<string>)
    returns (origin': seq<int>)
    requires lo < hi <= |c| && lo in kept && ZoneTraces(origin, c, zone, lo + 1, hi, kept)
    ensures ZoneTraces(origin', c, Flush(parts) + [c[lo]] + zone, lo, hi, kept)
  {
    PrependKept(origin, c, zone, lo, hi, kept);
    origin' := PrependFlush([lo] + origin, c, [c[lo]] + zone, lo, hi, kept, parts);
    assert Flush(parts) + ([c[lo]] + zone) == Flush(parts) + [c[lo]] + zone;
  }

  lemma {:induction false} ZoneOrigins(c: seq<Message>, lo: nat, hi: nat, kept: set<nat>, parts: seq<string>,
                                       summarize: Summarizer)
    returns (origin: seq<int>)
    requires lo <= hi <= |c|
    ensures ZoneTraces(origin, c, Zone(c, lo, hi, kept, parts, summarize), lo, hi, kept)
    decreases hi - lo
  {
    if lo == hi {
      origin := PrependFlush([], c, [], lo, hi, kept, parts);
      assert Flush(parts) + [] == Flush(parts);
    } else if lo in kept {
      var below := ZoneOrigins(c, lo + 1, hi, kept, [], summarize);
      origin := PrependBoth(below, c, Zone(c, lo + 1, hi, kept, [], summarize), lo, hi, kept, parts);
    } else {
      origin := ZoneOrigins(c, lo + 1, hi, kept, parts + SummariesOf(c[lo], summarize), summarize);
      SkipUnkept(origin, c, Zone(c, lo + 1, hi, kept, parts + SummariesOf(c[lo], summarize), summarize), lo, hi, kept);
    }
  }

  lemma SkipUnkept(origin: seq<int>, c: seq<Message>, zone: seq<Message>, lo: nat, hi: nat, kept: set<nat>)
    requires lo < hi <= |c| && lo !in kept && ZoneTraces(origin, c, zone, lo + 1, hi, kept)
    ensures ZoneTraces(origin, c, zone, lo, hi, kept)
  {}

  /** The condensed history is the first message, the kept anchors and the window from the
      cut to the end, each once and in the old order, with progress messages in between. */
  lemma CondensedOrigins(c: seq<Message>, maxRecent: nat, summarize: Summarizer) returns (origin: seq<int>)
    requires maxRecent >= 1 && |c| > maxRecent + 1
    ensures Traces(origin, c, Condensed(c, maxRecent, summarize))
    ensures
      var cut := |c| - maxRecent;
      var start := CutStart(c, cut);
      forall i: nat :: i < |c| ==> (i in origin <==> i == 0 || i >= start || i in KeptSet(c, cut))
  {
    var cut := |c| - maxRecent;
    var start := CutStart(c, cut);
    var kept := KeptSet(c, cut);
    var zone := Zone(c, 1, start, kept, [], summarize);
    var middle := ZoneOrigins(c, 1, start, kept, [], summarize);
    var window := seq(|c| - start, k requires 0 <= k < |c| - start => start + k);
    origin := [0] + middle + window;
    JoinTraces(origin, middle, window, c, zone, start);
    KeptAreAnchors(c, cut);
    forall i: nat | i < |c| ensures i in origin <==> i == 0 || i >= start || i in kept {
      assert i in origin <==> i == 0 || i in middle || i in window;
      if i >= start {
        assert window[i - start] == i;
      }
    }
  }

  lemma JoinTraces(origin: seq<int>, middle: seq<int>, window: seq<int>, c: seq<Message>, zone: seq<Message>,
                   start: nat)
    requires 1 <= start < |c| && origin == [0] + middle + window
    requires Traces(middle, c, zone)
    requires forall k :: 0 <= k < |middle| && middle[k] != INSERTED ==> 1 <= middle[k] < start
    requires |window| == |c| - start && forall k :: 0 <= k < |window| ==> window[k] == start + k
    ensures Traces(origin, c, [c[0]] + zone + c[start..])
  {
    var r := [c[0]] + zone + c[start..];
    forall k | 0 <= k < |r|
      ensures origin[k] == INSERTED || 0 <= origin[k] < |c|
      ensures if origin[k] == INSERTED then IsProgress(r[k]) else r[k] == c[origin[k]]
    {
      if 1 <= k < 1 + |zone| {
        assert origin[k] == middle[k - 1] && r[k] == zone[k - 1];
      } else if k > |zone| {
        assert origin[k] == window[k - 1 - |zone|];
      }
    }
  }

  // ----------------------------------------------------------- which anchors

  /** How many middle anchors come before position i. */
  function Rank(c: seq<Message>, i: nat): nat
    requires i <= |c|
  {
    |Anchors(c, i)|
  }

  lemma {:induction false} AnchorsPrefix(c: seq<Message>, i: nat, hi: nat)
    requires i <= hi <= |c|
    ensures Anchors(c, i) <= Anchors(c, hi)
    decreases hi
  {
    if i < hi {
      AnchorsPrefix(c, i, hi - 1);
    }
  }

  lemma AnchorAtRank(c: seq<Message>, i: nat, hi: nat)
    requires 1 <= i < hi <= |c| && IsAnchor(c[i])
    ensures Rank(c, i) < |Anchors(c, hi)| && Anchors(c, hi)[Rank(c, i)] == i
  {
    AnchorsPrefix(c, i + 1, hi);
  }

  /** A middle anchor is kept exactly when fewer than the budget precede it. */
  lemma AnchorKeptIff(c: seq<Message>, i: nat, hi: nat)
    requires 1 <= i < hi <= |c| && IsAnchor(c[i])
    ensures i in KeptSet(c, hi) <==> Rank(c, i) < Budget(|Anchors(c, hi)|)
  {
    var all := Anchors(c, hi);
    AnchorAtRank(c, i, hi);
    AnchorsAreAnchors(c, hi);
    var r := Rank(c, i);
    var kept := KeptAnchors(c, hi);
    if r < |kept| {
      assert kept[r] == i;
    }
    if i in kept {
      var k :| 0 <= k < |kept| && kept[k] == i;
      assert all[k] == i;
      assert k == r;
    }
  }

  /** The budget never cuts off an anchor when there are at most 21, and always does beyond. */
  lemma BudgetIsEnoughUpTo21(n: nat)
    ensures n <= Budget(n) <==> n <= 21
    ensures Budget(n) <= 24
  {}

  /** Every anchor of the middle survives when there are at most 21; in general exactly the
      earliest Budget(n) of them, and every one that lies in the window. */
  lemma AnchorsSurviveIff(c: seq<Message>, maxRecent: nat, summarize: Summarizer, i: nat, origin: seq<int>)
    requires maxRecent >= 1 && |c| > maxRecent + 1
    requires 1 <= i < |c| - maxRecent && IsAnchor(c[i])
    requires forall j: nat :: j < |c| ==>
               (j in origin <==> j == 0 || j >= CutStart(c, |c| - maxRecent) || j in KeptSet(c, |c| - maxRecent))
    ensures i in origin <==>
            Rank(c, i) < Budget(|Anchors(c, |c| - maxRecent)|) || i >= CutStart(c, |c| - maxRecent)
    ensures |Anchors(c, |c| - maxRecent)| <= 21 ==> i in origin
  {
    var hi := |c| - maxRecent;
    AnchorKeptIff(c, i, hi);
    AnchorAtRank(c, i, hi);
    BudgetIsEnoughUpTo21(|Anchors(c, hi)|);
  }

  // ----------------------------------------------------------- page contexts

  predicate OnePageCtx(ms: seq<Message>) {
    forall j, k :: 0 <= j < k < |ms| ==> !(IsPageCtx(ms[j]) && IsPageCtx(ms[k]))
  }

  function NonBlankPositions(ms: seq<Message>): seq<nat> {
    if ms == [] then []
    else NonBlankPositions(Front(ms)) + if IsBlank(Last(ms)) then [] else [|ms| - 1]
  }

  lemma {:induction false} PositionsPick(ms: seq<Message>)
    ensures
      var from := NonBlankPositions(ms);
      && |from| == |NonBlank(ms)|
      && (forall k :: 0 <= k < |from| ==> from[k] < |ms| && NonBlank(ms)[k] == ms[from[k]])
      && (forall j, k :: 0 <= j < k < |from| ==> from[j] < from[k])
    decreases |ms|
  {
    if ms != [] {
      PositionsPick(Front(ms));
    }
  }

  lemma {:induction false} PositionsCover(ms: seq<Message>, i: nat)
    requires i < |ms|
    ensures i in NonBlankPositions(ms) <==> !IsBlank(ms[i])
    decreases |ms|
  {
    PositionsPick(ms);
    PositionsPick(Front(ms));
    if i < |ms| - 1 {
      PositionsCover(Front(ms), i);
    }
  }

  /** Where a page context is not the first message, cleaning takes away exactly the earlier
      page contexts and the blank user messages, and else nothing. */
  lemma CleanedOrigins(ms: seq<Message>) returns (from: seq<nat>)
    ensures |from| == |Cleaned(ms)|
    ensures forall k :: 0 <= k < |from| ==> from[k] < |ms| && Cleaned(ms)[k] == ms[from[k]]
    ensures forall j, k :: 0 <= j < k < |from| ==> from[j] < from[k]
    ensures forall i: nat :: i < |ms| ==>
              (i in from <==> LatestPageCtx(ms) <= 0 || !(IsBlank(ms[i]) || (IsPageCtx(ms[i]) && i < LatestPageCtx(ms))))
    ensures OnePageCtx(Cleaned(ms))
  {
    var latest := LatestPageCtx(ms);
    if latest > 0 {
      var b := Blanked(ms, latest);
      from := NonBlankPositions(b);
      PositionsPick(b);
      forall k | 0 <= k < |from| ensures Cleaned(ms)[k] == ms[from[k]] {
        PositionsCover(b, from[k]);
      }
      forall i: nat | i < |ms| ensures i in from <==> !(IsBlank(ms[i]) || (IsPageCtx(ms[i]) && i < latest)) {
        PositionsCover(b, i);
      }
      forall j, k | 0 <= j < k < |from| ensures !(IsPageCtx(Cleaned(ms)[j]) && IsPageCtx(Cleaned(ms)[k])) {
        assert from[j] < from[k];
      }
    } else {
      from := seq(|ms|, i => i);
      forall i: nat | i < |ms| ensures i in from {
        assert from[i] == i;
      }
    }
  }

  lemma ProgressIsNoPageCtx(m: Message)
    requires IsProgress(m)
    ensures !IsPageCtx(m) && !IsBlank(m)
  {
    assert m.content[2] == 'r';
  }

  /** What pruning yields has at most one page context. */
  lemma CondensedHasOnePageCtx(c: seq<Message>, maxRecent: nat, summarize: Summarizer)
    requires maxRecent >= 1 && |c| > maxRecent + 1 && OnePageCtx(c)
    ensures OnePageCtx(Condensed(c, maxRecent, summarize))
  {
    var origin := CondensedOrigins(c, maxRecent, summarize);
    var r := Condensed(c, maxRecent, summarize);
    forall j, k | 0 <= j < k < |r| ensures !(IsPageCtx(r[j]) && IsPageCtx(r[k])) {
      if origin[j] == INSERTED {
        ProgressIsNoPageCtx(r[j]);
      } else if origin[k] == INSERTED {
        ProgressIsNoPageCtx(r[k]);
      }
    }
  }

  lemma PrunedHasOnePageCtx(ms: seq<Message>, maxRecent: nat, summarize: Summarizer)
    requires maxRecent >= 1 && |ms| > maxRecent + 1
    ensures OnePageCtx(Pruned(ms, maxRecent, summarize))
  {
    var from := CleanedOrigins(ms);
    if Prunes(ms, maxRecent) {
      CondensedHasOnePageCtx(Cleaned(ms), maxRecent, summarize);
    }
  }

  // ------------------------------------------------------------------ length

  function KeptFrom(kept: set<nat>, lo: nat): set<nat> { set i | i in kept && i >= lo }

  lemma {:induction false} ZoneLength(c: seq<Message>, lo: nat, hi: nat, kept: set<nat>, parts: seq<string>,
                                      summarize: Summarizer)
    requires lo <= hi <= |c|
    ensures |Zone(c, lo, hi, kept, parts, summarize)| <= 2 * |KeptFrom(kept, lo)| + 1
    decreases hi - lo
  {
    if lo < hi {
      if lo in kept {
        ZoneLength(c, lo + 1, hi, kept, [], summarize);
        assert KeptFrom(kept, lo) == KeptFrom(kept, lo + 1) + {lo};
      } else {
        ZoneLength(c, lo + 1, hi, kept, parts + SummariesOf(c[lo], summarize), summarize);
        assert KeptFrom(kept, lo) == KeptFrom(kept, lo + 1);
      }
    }
  }

  lemma {:induction false} SetOfSeq(s: seq<nat>)
    ensures |AsSet(s)| <= |s|
    decreases |s|
  {
    if s == [] {
      assert AsSet(s) == {};
    } else {
      SetOfSeq(s[1..]);
      assert s == [s[0]] + s[1..];
      assert AsSet(s) == AsSet(s[1..]) + {s[0]};
    }
  }

  /** At most 50 messages besides the window and the results the cut backs over. */
  lemma CondensedLength(c: seq<Message>, maxRecent: nat, summarize: Summarizer)
    requires maxRecent >= 1 && |c| > maxRecent + 1
    ensures
      var cut := |c| - maxRecent;
      |Condensed(c, maxRecent, summarize)| <= 50 + maxRecent + (cut - CutStart(c, cut))
    ensures forall k :: CutStart(c, |c| - maxRecent) < k <= |c| - maxRecent ==> c[k].role == Tool
  {
    var cut := |c| - maxRecent;
    var kept := KeptAnchors(c, cut);
    SetOfSeq(kept);
    BudgetIsEnoughUpTo21(|Anchors(c, cut)|);
    ZoneLength(c, 1, CutStart(c, cut), KeptSet(c, cut), [], summarize);
    KeptAreAnchors(c, cut);
    assert KeptFrom(KeptSet(c, cut), 1) == KeptSet(c, cut);
  }

  // ------------------------------------------------------- why tight matters

  /** A reply with two calls, both answered, with a user message between the two results. */
  predicate SplitReply(group: seq<Message>) {
    && |group| == 4 && group[0].role == Assistant && group[1].role == Tool
    && group[2].role == User && group[3].role == Tool
    && Ids(group[0].toolCalls) == [group[1].toolCallId, group[3].toolCallId]
  }

  predicate NoPageCtx(ms: seq<Message>) { forall k :: 0 <= k < |ms| ==> !IsPageCtx(ms[k]) }

  lemma SplitReplyFeeds(head: seq<Message>, group: seq<Message>)
    requires WellFormed(head) && SplitReply(group)
    ensures FeedAll(NOTHING, head + group[..2], false) == Some([group[3].toolCallId])
    ensures WellFormed(head + group)
  {
    var ids := Ids(group[0].toolCalls);
    assert ids[1..] == [group[3].toolCallId] && [group[3].toolCallId][1..] == [];
    var h1 := head + [group[0]];
    var h2 := h1 + [group[1]];
    var h3 := h2 + [group[2]];
    FeedSnoc(NOTHING, head, group[0], false);
    FeedSnoc(NOTHING, h1, group[1], false);
    FeedSnoc(NOTHING, h2, group[2], false);
    FeedSnoc(NOTHING, h3, group[3], false);
    assert head + group[..2] == h2;
    assert head + group == h3 + [group[3]];
  }

  lemma NoPageCtxAtAll(ms: seq<Message>)
    requires NoPageCtx(ms)
    ensures Cleaned(ms) == ms
  {}

  /** Context messages are injected after each result, so also between two results of one
      reply. A window cut there, at the second result or at the injected message, leaves the
      reply and its first result outside. */
  lemma CutInsideGroup(head: seq<Message>, group: seq<Message>, tail: seq<Message>, window: nat)
    requires head != [] && WellFormed(head) && SplitReply(group) && |tail| + 1 <= window <= |tail| + 2
    requires NoPageCtx(head + group + tail)
    ensures
      var ms := head + group + tail;
      && Prunes(ms, window)
      && OpenAtCut(Cleaned(ms), window, false) == Some([group[3].toolCallId])
  {
    var ms := head + group + tail;
    NoPageCtxAtAll(ms);
    SplitReplyFeeds(head, group);
    assert ms[|head| + 2] == group[2] && ms[|head| + 3] == group[3];
    assert CutStart(ms, |head| + 2) == |head| + 2;
    assert CutStart(ms, |head| + 3) == |head| + 2;
    assert ms[..|head| + 2] == head + group[..2];
  }

  /** The prune then drops the reply and keeps its second result. */
  lemma SplitReplyBreaks(head: seq<Message>, group: seq<Message>, tail: seq<Message>, window: nat,
                         summarize: Summarizer)
    requires PlainStart(head) && WellFormed(head) && SplitReply(group) && |tail| + 1 <= window <= |tail| + 2
    requires WellFormed(tail) && NoPageCtx(head + group + tail)
    ensures WellFormed(head + group + tail)
    ensures !WellFormed(Pruned(head + group + tail, window, summarize))
  {
    SplitReplyFeeds(head, group);
    FeedConcat(NOTHING, head + group, tail, false);
    CutInsideGroup(head, group, tail, window);
    PruneKeepsWellFormedIff(head + group + tail, window, summarize);
  }
}
