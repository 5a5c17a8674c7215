/** tools/editing.go: search/replace patches, and the choice of the occurrence nearest to a
    context string. Positions and lengths are those of the bytes of the strings. */
module ReplaceNear {
  import opened Substrings
  import opened Text

  function Abs(x: int): nat { if x < 0 then -x else x }

  /** Distance of the centre of an occurrence at i from the given centre. */
  function CentreDistance(search: string, i: int, centre: int): nat { Abs(i + |search| / 2 - centre) }

  /** The centre of the first occurrence of the context. */
  function CentreOf(content: string, near: string): int { IndexIn(content, near) + |near| / 2 }

  /** The occurrence at k is at least as near as any other, and the first of those. */
  ghost predicate Nearest(content: string, search: string, centre: int, k: int) {
    && OccursAt(content, search, k)
    && forall j :: OccursAt(content, search, j) ==>
         CentreDistance(search, k, centre) < CentreDistance(search, j, centre)
         || (CentreDistance(search, k, centre) == CentreDistance(search, j, centre) && k <= j)
  }

  lemma NearestIsUnique(content: string, search: string, centre: int, j: int, k: int)
    requires Nearest(content, search, centre, j) && Nearest(content, search, centre, k)
    ensures j == k
  {}

  /** The initial bound of the search, the length of the content, is above every distance. */
  lemma DistanceBelowLength(content: string, search: string, near: string, i: int)
    requires search != "" && OccursAt(content, search, i) && IndexIn(content, near) != -1
    ensures CentreDistance(search, i, CentreOf(content, near)) < |content|
  {
    IndexIsFirst(content, near, 0);
  }

  /** The nearest of the occurrences that start before hi, or -1. */
  function NearestBefore(content: string, search: string, centre: int, hi: nat): int {
    if hi == 0 then -1
    else
      var best := NearestBefore(content, search, centre, hi - 1);
      if OccursAt(content, search, hi - 1)
         && (best == -1 || CentreDistance(search, hi - 1, centre) < CentreDistance(search, best, centre))
      then hi - 1 else best
  }

  lemma {:induction false} NearestBeforeIs(content: string, search: string, centre: int, hi: nat)
    ensures
      var best := NearestBefore(content, search, centre, hi);
      if best == -1 then forall j :: OccursAt(content, search, j) ==> hi <= j
      else
        && OccursAt(content, search, best) && best < hi
        && forall j :: OccursAt(content, search, j) && j < hi ==>
             CentreDistance(search, best, centre) < CentreDistance(search, j, centre)
             || (CentreDistance(search, best, centre) == CentreDistance(search, j, centre) && best <= j)
    decreases hi
  {
    if hi > 0 {
      NearestBeforeIs(content, search, centre, hi - 1);
    }
  }

  function NearestOf(content: string, search: string, centre: int): int {
    NearestBefore(content, search, centre, |content|)
  }

  /** It is an occurrence whenever there is one, the nearest and then the earliest. */
  lemma NearestOfIs(content: string, search: string, centre: int)
    requires search != ""
    ensures if forall j :: !OccursAt(content, search, j) then NearestOf(content, search, centre) == -1
            else Nearest(content, search, centre, NearestOf(content, search, centre))
  {
    NearestBeforeIs(content, search, centre, |content|);
  }

  /** What replacing near a context gives. */
  function NearReplaced(content: string, search: string, with: string, near: string): string
    requires search != ""
  {
    if IndexIn(content, near) == -1 then Replace(content, search, with, 1)
    else
      NearestOfIs(content, search, CentreOf(content, near));
      var k := NearestOf(content, search, CentreOf(content, near));
      if k == -1 then content else Exchange(content, search, with, k)
  }

  /** Candidates are the occurrences before the offset. */
  ghost predicate BestBefore(content: string, search: string, centre: int, offset: int, best: int, bestDist: int) {
    if best == -1 then bestDist == |content| && forall j :: OccursAt(content, search, j) ==> offset <= j
    else
      && OccursAt(content, search, best) && best < offset && bestDist == CentreDistance(search, best, centre)
      && forall j :: OccursAt(content, search, j) && j < offset ==>
           bestDist < CentreDistance(search, j, centre) || (bestDist == CentreDistance(search, j, centre) && best <= j)
  }

  /** The next occurrence from the offset on joins the candidates. */
  lemma NextCandidate(content: string, search: string, near: string, offset: nat, best: int, bestDist: int)
    requires search != "" && IndexIn(content, near) != -1 && offset <= |content|
    requires BestBefore(content, search, CentreOf(content, near), offset, best, bestDist)
    requires IndexIn(content[offset..], search) != -1
    ensures
      var k, centre := offset + IndexIn(content[offset..], search), CentreOf(content, near);
      var d := CentreDistance(search, k, centre);
      && offset <= k < |content| && OccursAt(content, search, k)
      && if d < bestDist then BestBefore(content, search, centre, k + 1, k, d)
         else BestBefore(content, search, centre, k + 1, best, bestDist)
  {
    IndexInSuffix(content, search, offset);
    DistanceBelowLength(content, search, near, offset + IndexIn(content[offset..], search));
  }

  /** With no occurrence left the best candidate is the nearest of all. */
  lemma NoneIsLeft(content: string, search: string, centre: int, offset: nat, best: int, bestDist: int)
    requires search != "" && offset <= |content| && IndexIn(content[offset..], search) == -1
    requires BestBefore(content, search, centre, offset, best, bestDist)
    ensures best == NearestOf(content, search, centre)
  {
    IndexInSuffix(content, search, offset);
    NearestOfIs(content, search, centre);
    if best != -1 {
      NearestIsUnique(content, search, centre, best, NearestOf(content, search, centre));
    }
  }

  method ReplaceNear(content: string, search: string, with: string, near: string) returns (r: string)
    requires search != ""
    ensures r == NearReplaced(content, search, with, near)
  {
    var nearIdx := IndexIn(content, near);
    if nearIdx == -1 {
      return Replace(content, search, with, 1);
    }
    var bestIdx := FindNearest(content, search, near);
    NearestOfIs(content, search, CentreOf(content, near));
    if bestIdx == -1 {
      return content;
    }
    r := content[..bestIdx] + with + content[bestIdx + |search|..];
  }

  /** The loop over all occurrences. */
  method FindNearest(content: string, search: string, near: string) returns (bestIdx: int)
    requires search != "" && IndexIn(content, near) != -1
    ensures bestIdx == NearestOf(content, search, CentreOf(content, near))
  {
    var centre := IndexIn(content, near) + |near| / 2;
    bestIdx := -1;
    var bestDist, offset := |content|, 0;
    while IndexIn(content[offset..], search) != -1
      invariant 0 <= offset <= |content|
      invariant BestBefore(content, search, centre, offset, bestIdx, bestDist)
      decreases |content| - offset
    {
      NextCandidate(content, search, near, offset, bestIdx, bestDist);
      var absIdx := offset + IndexIn(content[offset..], search);
      var dist := absIdx + |search| / 2 - centre;
      if dist < 0 {
        dist := -dist;
      }
      if dist < bestDist {
        bestDist, bestIdx := dist, absIdx;
      }
      offset := absIdx + 1;
    }
    NoneIsLeft(content, search, centre, offset, bestIdx, bestDist);
  }

  /** Of all occurrences, overlapping ones included, the one nearest to the context is
      replaced, the earliest of equally near ones, and nothing else changes; without the
      context in the text it is the first occurrence. */
  lemma NearReplacesNearest(content: string, search: string, with: string, near: string)
    requires search != ""
    ensures IndexIn(content, near) == -1 && IndexIn(content, search) != -1 ==>
      var k := IndexIn(content, search);
      OccursAt(content, search, k) && (forall j :: OccursAt(content, search, j) ==> k <= j)
      && NearReplaced(content, search, with, near) == Exchange(content, search, with, k)
    ensures IndexIn(content, search) == -1 ==> NearReplaced(content, search, with, near) == content
    ensures IndexIn(content, near) != -1 && IndexIn(content, search) != -1 ==>
      exists k :: Nearest(content, search, CentreOf(content, near), k)
               && NearReplaced(content, search, with, near) == Exchange(content, search, with, k)
  {
    IndexIsFirst(content, search, 0);
    NearestOfIs(content, search, CentreOf(content, near));
    if IndexIn(content, search) != -1 {
      ReplaceOne(content, search, with);
    }
  }

  // ------------------------------------------------------------ many patches

  datatype Patch = Patch(search: string, with: string, count: int, near: string)

  datatype Report = Report(applied: seq<string>, notFound: seq<string>, warnings: seq<(string, nat)>)

  const LABEL_LENGTH := 60

  function Label(search: string): string {
    if |search| > LABEL_LENGTH then search[..LABEL_LENGTH] + "..." else search
  }

  function CountLimit(p: Patch): int { if p.count == -1 then -1 else if p.count > 0 then p.count else 1 }

  predicate ByContext(content: string, p: Patch)
    requires p.search != ""
  {
    p.near != "" && Count(content, p.search) > 1
  }

  function After(content: string, p: Patch): string {
    if p.search == "" || Count(content, p.search) == 0 then content
    else if ByContext(content, p) then NearReplaced(content, p.search, p.with, p.near)
    else Replace(content, p.search, p.with, CountLimit(p))
  }

  function AfterAll(content: string, patches: seq<Patch>): string {
    if patches == [] then content else After(AfterAll(content, Front(patches)), Last(patches))
  }

  function Noted(content: string, p: Patch, report: Report): Report {
    if p.search == "" then report
    else
      var n := Count(content, p.search);
      if n == 0 then report.(notFound := report.notFound + [p.search])
      else
        report.(applied := report.applied + [Label(p.search)],
                warnings := report.warnings
                  + if n > 1 && p.count != -1 && p.near == "" then [(Label(p.search), n)] else [])
  }

  function Reported(content: string, patches: seq<Patch>): Report {
    if patches == [] then Report([], [], [])
    else Noted(AfterAll(content, Front(patches)), Last(patches), Reported(content, Front(patches)))
  }

  method ApplyPatches(content: string, patches: seq<Patch>) returns (modified: string, report: Report)
    ensures modified == AfterAll(content, patches) && report == Reported(content, patches)
  {
    modified, report := content, Report([], [], []);
    for i := 0 to |patches|
      invariant modified == AfterAll(content, patches[..i]) && report == Reported(content, patches[..i])
    {
      var p := patches[i];
      assert Front(patches[..i + 1]) == patches[..i];
      if p.search == "" {
        continue;
      }
      var occurrences := Count(modified, p.search);
      if occurrences == 0 {
        report := report.(notFound := report.notFound + [p.search]);
        continue;
      }
      if p.near != "" && occurrences > 1 {
        modified := ReplaceNear(modified, p.search, p.with, p.near);
      } else {
        var count := 1;
        if p.count == -1 {
          count := -1;
        } else if p.count > 0 {
          count := p.count;
        }
        modified := Replace(modified, p.search, p.with, count);
      }
      var name := Label(p.search);
      report := report.(applied := report.applied + [name]);
      if occurrences > 1 && p.count != -1 && p.near == "" {
        report := report.(warnings := report.warnings + [(name, occurrences)]);
      }
    }
    assert patches[..|patches|] == patches;
  }

  /** A patch with a context there is, for a text that occurs more than once: the occurrence
      nearest to the context changes, the earliest of equally near ones, and nothing else,
      whatever the count. */
  lemma ContextPicksNearest(content: string, p: Patch)
    requires p.search != "" && Count(content, p.search) > 1 && p.near != "" && IndexIn(content, p.near) != -1
    ensures exists k :: Nearest(content, p.search, CentreOf(content, p.near), k)
                     && After(content, p) == Exchange(content, p.search, p.with, k)
  {
    NearReplacesNearest(content, p.search, p.with, p.near);
  }

  /** With a context there is not, or without a count, or with a count of one, it is the first
      occurrence. */
  lemma OnePatchOneOccurrence(content: string, p: Patch)
    requires p.search != "" && Count(content, p.search) > 0
    requires if p.near != "" && Count(content, p.search) > 1 then IndexIn(content, p.near) == -1
             else p.count != -1 && p.count <= 1
    ensures
      var k := IndexIn(content, p.search);
      && OccursAt(content, p.search, k) && (forall j :: OccursAt(content, p.search, j) ==> k <= j)
      && After(content, p) == Exchange(content, p.search, p.with, k)
  {
    IndexIsFirst(content, p.search, 0);
    assert IndexIn(content, p.search) != -1;
    ReplaceOne(content, p.search, p.with);
  }

  /** Without a context, or when it is not needed, the leftmost occurrences that do not overlap
      change: all of them for a count of -1, else as many as the count says, one for none. */
  lemma PatchExchanges(content: string, p: Patch) returns (ps: seq<nat>)
    requires p.search != "" && (p.near == "" || Count(content, p.search) <= 1)
    ensures FirstOccurrences(content, p.search, 0, ps)
    ensures
      var n := Count(content, p.search);
      |ps| == if p.count == -1 then n else if p.count <= 0 then (if n == 0 then 0 else 1)
              else if p.count < n then p.count else n
    ensures After(content, p) == ExchangedAt(content, p.search, p.with, 0, ps)
    ensures |After(content, p)| == |content| + |ps| * (|p.with| - |p.search|)
    ensures p.count == -1 || |ps| < p.count ==>
      forall k :: EndOf(ps, |p.search|, 0) <= k ==> !OccursAt(content, p.search, k)
  {
    ps := ReplaceExchanges(content, p.search, p.with, CountLimit(p), 0);
    ExchangedLength(content, p.search, p.with, 0, ps);
    assert content[0..] == content;
  }

  /** Each patch with a search text is reported once, as applied or as not found. */
  function Searches(patches: seq<Patch>): nat {
    if patches == [] then 0 else Searches(Front(patches)) + if Last(patches).search != "" then 1 else 0
  }

  lemma {:induction false} EveryPatchIsReported(content: string, patches: seq<Patch>)
    ensures
      var r := Reported(content, patches);
      && |r.applied| + |r.notFound| == Searches(patches)
      && (r.applied == [] ==> AfterAll(content, patches) == content)
      && |r.warnings| <= |r.applied|
    decreases |patches|
  {
    if patches != [] {
      EveryPatchIsReported(content, Front(patches));
    }
  }

  predicate Finds(content: string, p: Patch) { p.search != "" && Count(content, p.search) > 0 }

  /** Patch k is applied to the text the patches before it have left. */
  function Before(content: string, patches: seq<Patch>, k: nat): string
    requires k < |patches|
  {
    AfterAll(content, patches[..k])
  }

  /** The search text of patch k, cut at 60 characters. */
  function Shortened(p: Patch): string { if |p.search| <= 60 then p.search else p.search[..60] + "..." }

  predicate AppliedAt(content: string, patches: seq<Patch>, k: nat, name: string)
    requires k < |patches|
  {
    Finds(Before(content, patches, k), patches[k]) && Shortened(patches[k]) == name
  }

  predicate MissedAt(content: string, patches: seq<Patch>, k: nat, name: string)
    requires k < |patches|
  {
    patches[k].search == name != "" && Count(Before(content, patches, k), name) == 0
  }

  predicate WarnedAt(content: string, patches: seq<Patch>, k: nat, name: string, n: nat)
    requires k < |patches|
  {
    && AppliedAt(content, patches, k, name) && n == Count(Before(content, patches, k), patches[k].search) > 1
    && patches[k].count != -1 && patches[k].near == ""
  }

  lemma SamePrefix(content: string, patches: seq<Patch>, k: nat)
    requires k < |patches| - 1
    ensures Front(patches)[k] == patches[k] && Before(content, Front(patches), k) == Before(content, patches, k)
  {
    assert Front(patches)[..k] == patches[..k];
  }

  ghost predicate SomeApplied(content: string, patches: seq<Patch>, name: string) {
    exists k: nat :: k < |patches| && AppliedAt(content, patches, k, name)
  }

  ghost predicate SomeMissed(content: string, patches: seq<Patch>, name: string) {
    exists k: nat :: k < |patches| && MissedAt(content, patches, k, name)
  }

  ghost predicate SomeWarned(content: string, patches: seq<Patch>, name: string, n: nat) {
    exists k: nat :: k < |patches| && WarnedAt(content, patches, k, name, n)
  }

  lemma OneMoreApplied(content: string, patches: seq<Patch>, name: string)
    requires patches != []
    ensures SomeApplied(content, patches, name) <==>
            SomeApplied(content, Front(patches), name) || AppliedAt(content, patches, |patches| - 1, name)
  {
    forall k: nat | k < |patches| - 1
      ensures AppliedAt(content, Front(patches), k, name) <==> AppliedAt(content, patches, k, name)
    {
      SamePrefix(content, patches, k);
    }
    if SomeApplied(content, Front(patches), name) {
      var k: nat :| k < |Front(patches)| && AppliedAt(content, Front(patches), k, name);
      assert AppliedAt(content, patches, k, name);
    }
  }

  lemma OneMoreMissed(content: string, patches: seq<Patch>, name: string)
    requires patches != []
    ensures SomeMissed(content, patches, name) <==>
            SomeMissed(content, Front(patches), name) || MissedAt(content, patches, |patches| - 1, name)
  {
    forall k: nat | k < |patches| - 1
      ensures MissedAt(content, Front(patches), k, name) <==> MissedAt(content, patches, k, name)
    {
      SamePrefix(content, patches, k);
    }
    if SomeMissed(content, Front(patches), name) {
      var k: nat :| k < |Front(patches)| && MissedAt(content, Front(patches), k, name);
      assert MissedAt(content, patches, k, name);
    }
  }

  lemma OneMoreWarned(content: string, patches: seq<Patch>, name: string, n: nat)
    requires patches != []
    ensures SomeWarned(content, patches, name, n) <==>
            SomeWarned(content, Front(patches), name, n) || WarnedAt(content, patches, |patches| - 1, name, n)
  {
    forall k: nat | k < |patches| - 1
      ensures WarnedAt(content, Front(patches), k, name, n) <==> WarnedAt(content, patches, k, name, n)
    {
      SamePrefix(content, patches, k);
    }
    if SomeWarned(content, Front(patches), name, n) {
      var k: nat :| k < |Front(patches)| && WarnedAt(content, Front(patches), k, name, n);
      assert WarnedAt(content, patches, k, name, n);
    }
  }

  /** What is in the report: as applied, each search text found in what the patches before left;
      as missing, each that was not; and a warning with their number where there were several,
      and neither all of them nor a certain one were asked for. */
  lemma {:induction false} ReportIs(content: string, patches: seq<Patch>, name: string, n: nat)
    ensures
      var r := Reported(content, patches);
      && (name in r.applied <==> SomeApplied(content, patches, name))
      && (name in r.notFound <==> SomeMissed(content, patches, name))
      && ((name, n) in r.warnings <==> SomeWarned(content, patches, name, n))
    decreases |patches|
  {
    if patches != [] {
      ReportIs(content, Front(patches), name, n);
      OneMoreApplied(content, patches, name);
      OneMoreMissed(content, patches, name);
      OneMoreWarned(content, patches, name, n);
      assert patches[..|patches| - 1] == Front(patches);
    }
  }

  /** Something is looked for, and nothing of it is in the text. */
  predicate NothingFound(content: string, patches: seq<Patch>) {
    && (exists k :: 0 <= k < |patches| && patches[k].search != "")
    && forall k :: 0 <= k < |patches| ==> !Finds(content, patches[k])
  }

  lemma {:induction false} NoneAppliesIff(content: string, patches: seq<Patch>)
    ensures Reported(content, patches).applied == [] <==> forall k :: 0 <= k < |patches| ==> !Finds(content, patches[k])
    decreases |patches|
  {
    if patches != [] {
      NoneAppliesIff(content, Front(patches));
      EveryPatchIsReported(content, Front(patches));
      assert forall k :: 0 <= k < |Front(patches)| ==> Front(patches)[k] == patches[k];
      assert patches[|patches| - 1] == Last(patches);
    }
  }

  lemma {:induction false} SearchesIff(patches: seq<Patch>)
    ensures Searches(patches) > 0 <==> exists k :: 0 <= k < |patches| && patches[k].search != ""
    decreases |patches|
  {
    if patches != [] {
      SearchesIff(Front(patches));
      assert forall k :: 0 <= k < |Front(patches)| ==> Front(patches)[k] == patches[k];
      assert patches[|patches| - 1] == Last(patches);
    }
  }

  /** When the report says that no patch matched, in terms of the text before the first one. */
  lemma NoMatchIff(content: string, patches: seq<Patch>)
    ensures
      var r := Reported(content, patches);
      r.applied == [] && r.notFound != [] <==> NothingFound(content, patches)
  {
    NoneAppliesIff(content, patches);
    SearchesIff(patches);
    EveryPatchIsReported(content, patches);
  }
}
