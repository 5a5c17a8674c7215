/** What the deletes of a call take away, when they meet the text its other edits have left:
    exactly the original lines they number if and only if nothing above moves those lines. */
module DeletedLines {
  import opened Wrappers
  import opened Text
  import opened LineEdits
  import opened SimultaneousEdits

  // ----------------------------------------------------------- new line numbers

  /** The number of the first line of what original line d has become. */
  function NewNumber<T>(chunks: seq<seq<T>>, d: nat): nat
    requires 1 <= d <= |chunks|
  {
    |Concat(chunks[..d - 1])| + 1
  }

  /** The deletes name lines of the original text that still have a line of their own. */
  predicate Standing<T>(chunks: seq<seq<T>>, deleted: set<int>) {
    forall d :: d in deleted ==> 1 <= d <= |chunks| && chunks[d - 1] != []
  }

  function OwnNumbers<T>(chunks: seq<seq<T>>, deleted: set<int>): set<int>
    requires Standing(chunks, deleted)
  {
    set d | d in deleted :: NewNumber(chunks, d)
  }

  /** Every chunk, without its first line where its original line is deleted. */
  function DropFirsts<T>(chunks: seq<seq<T>>, deleted: set<int>): (r: seq<seq<T>>)
    ensures |r| == |chunks|
  {
    seq(|chunks|, k requires 0 <= k < |chunks| => WithoutFirst(chunks[k], k + 1 in deleted))
  }

  function WithoutFirst<T>(chunk: seq<T>, drop: bool): seq<T> {
    if drop && chunk != [] then chunk[1..] else chunk
  }

  /** A number is deleted exactly when it is that of a line a delete was meant for. */
  ghost predicate HitsItsLines(chunks: seq<Lines>, deleted: set<int>)
    requires Standing(chunks, deleted)
  {
    forall x :: 1 <= x <= |Concat(chunks)| ==> (x in deleted <==> x in OwnNumbers(chunks, deleted))
  }

  lemma NumberAfter<T>(chunks: seq<seq<T>>, d: nat)
    requires 1 <= d < |chunks|
    ensures NewNumber(chunks, d + 1) == NewNumber(chunks, d) + |chunks[d - 1]|
  {
    assert Front(chunks[..d]) == chunks[..d - 1];
  }

  lemma {:induction false} NumbersAscend<T>(chunks: seq<seq<T>>, c: nat, d: nat)
    requires 1 <= c < d <= |chunks|
    ensures NewNumber(chunks, c) + |chunks[c - 1]| <= NewNumber(chunks, d)
    decreases d
  {
    NumberAfter(chunks, d - 1);
    if c < d - 1 {
      NumbersAscend(chunks, c, d - 1);
    }
  }

  /** What original line d has become stands at its new number. */
  lemma ChunkStands<T>(chunks: seq<seq<T>>, d: nat)
    requires 1 <= d <= |chunks|
    ensures
      var x := NewNumber(chunks, d);
      x - 1 + |chunks[d - 1]| <= |Concat(chunks)| && Concat(chunks)[x - 1..x - 1 + |chunks[d - 1]|] == chunks[d - 1]
  {
    Halves(chunks, d);
    assert Front(chunks[..d]) == chunks[..d - 1];
    var a, b, c := Concat(chunks[..d - 1]), chunks[d - 1], Concat(chunks[d..]);
    assert ((a + b) + c)[|a|..|a| + |b|] == b;
  }

  lemma OwnAscend<T>(chunks: seq<seq<T>>, deleted: set<int>, c: int, d: int)
    requires Standing(chunks, deleted) && c in deleted && 1 <= d <= |chunks| && c < d
    ensures NewNumber(chunks, c) < NewNumber(chunks, d)
  {
    NumbersAscend(chunks, c, d);
  }

  /** If the numbers agree as sets, each one agrees: the least that did not would have to be
      met by a smaller one. */
  lemma {:induction false} EachKeepsItsNumber(chunks: seq<Lines>, deleted: set<int>, d: nat)
    requires Standing(chunks, deleted) && HitsItsLines(chunks, deleted) && d in deleted
    ensures NewNumber(chunks, d) == d
    decreases d
  {
    ChunkStands(chunks, d);
    var x := NewNumber(chunks, d);
    assert x in OwnNumbers(chunks, deleted);
    if x < d {
      EachKeepsItsNumber(chunks, deleted, x);
      OwnAscend(chunks, deleted, x, d);
    } else if d < x {
      var c :| c in deleted && NewNumber(chunks, c) == d;
      if d < c {
        OwnAscend(chunks, deleted, d, c);
      } else if c < d {
        EachKeepsItsNumber(chunks, deleted, c);
      }
    }
  }

  lemma HitsItsLinesIff(chunks: seq<Lines>, deleted: set<int>)
    requires Standing(chunks, deleted)
    ensures HitsItsLines(chunks, deleted) <==> forall d :: d in deleted ==> NewNumber(chunks, d) == d
  {
    if HitsItsLines(chunks, deleted) {
      forall d | d in deleted ensures NewNumber(chunks, d) == d {
        EachKeepsItsNumber(chunks, deleted, d);
      }
    }
    if forall d :: d in deleted ==> NewNumber(chunks, d) == d {
      forall x | x in OwnNumbers(chunks, deleted) ensures x in deleted {
        var d :| d in deleted && NewNumber(chunks, d) == x;
      }
      forall x | x in deleted ensures x in OwnNumbers(chunks, deleted) {
        assert NewNumber(chunks, x) == x;
      }
    }
  }

  // --------------------------------------------------- what a set of numbers keeps

  lemma {:induction false} KeepFromSnoc(lines: Lines, last: string, h: nat, deleted: set<int>)
    requires h <= |lines|
    ensures KeepFrom(lines + [last], h, deleted) ==
            KeepFrom(lines, h, deleted) + if |lines| + 1 in deleted then [] else [last]
    decreases |lines| - h
  {
    if h < |lines| {
      KeepFromSnoc(lines, last, h + 1, deleted);
    } else {
      assert KeepFrom(lines + [last], h + 1, deleted) == [];
    }
  }

  /** The first of the appended lines is the only one that may be deleted. */
  lemma {:induction false} KeepChunk(lines: Lines, chunk: Lines, deleted: set<int>)
    requires forall x :: |lines| + 1 < x <= |lines| + |chunk| ==> x !in deleted
    ensures Keep(lines + chunk, deleted) == Keep(lines, deleted) + WithoutFirst(chunk, |lines| + 1 in deleted)
    decreases |chunk|
  {
    if chunk == [] {
      assert lines + chunk == lines;
    } else {
      var most := Front(chunk);
      KeepChunk(lines, most, deleted);
      assert lines + chunk == (lines + most) + [Last(chunk)];
      KeepFromSnoc(lines + most, Last(chunk), 0, deleted);
      FirstOfLonger(most, Last(chunk), |lines| + 1 in deleted);
    }
  }

  lemma FirstOfLonger<T>(most: seq<T>, last: T, drop: bool)
    ensures most != [] || !drop ==> WithoutFirst(most + [last], drop) == WithoutFirst(most, drop) + [last]
    ensures most == [] && drop ==> WithoutFirst(most + [last], drop) == []
  {}

  /** Of the n numbers from x, the first is in the set or none is. */
  ghost predicate FirstOrNone(x: int, n: nat, first: bool, numbers: set<int>) {
    forall y :: x <= y < x + n ==> (y in numbers <==> first && y == x)
  }

  /** `numbers` holds the new number of every deleted line, and no other below the end. */
  ghost predicate AreFirsts(chunks: seq<Lines>, deleted: set<int>, numbers: set<int>) {
    forall d :: 1 <= d <= |chunks| ==>
                  FirstOrNone(NewNumber(chunks, d), |chunks[d - 1]|, d in deleted, numbers)
  }

  lemma FirstsOfFront(chunks: seq<Lines>, deleted: set<int>, numbers: set<int>)
    requires chunks != [] && AreFirsts(chunks, deleted, numbers)
    ensures AreFirsts(Front(chunks), deleted, numbers)
  {
    forall d | 1 <= d <= |Front(chunks)|
      ensures FirstOrNone(NewNumber(Front(chunks), d), |Front(chunks)[d - 1]|, d in deleted, numbers)
    {
      assert Front(chunks)[..d - 1] == chunks[..d - 1];
      assert FirstOrNone(NewNumber(chunks, d), |chunks[d - 1]|, d in deleted, numbers);
    }
  }

  lemma LastFirst(chunks: seq<Lines>, deleted: set<int>, numbers: set<int>)
    requires chunks != [] && AreFirsts(chunks, deleted, numbers)
    ensures FirstOrNone(|Concat(Front(chunks))| + 1, |Last(chunks)|, |chunks| in deleted, numbers)
  {
    assert Front(chunks) == chunks[..|chunks| - 1];
    assert NewNumber(chunks, |chunks|) == |Concat(Front(chunks))| + 1;
  }

  lemma LastDropped(chunks: seq<Lines>, deleted: set<int>, numbers: set<int>)
    requires chunks != [] && AreFirsts(chunks, deleted, numbers)
    ensures WithoutFirst(Last(chunks), |Concat(Front(chunks))| + 1 in numbers) == Last(DropFirsts(chunks, deleted))
  {
    LastFirst(chunks, deleted, numbers);
  }

  lemma {:induction false} FirstsDropped(chunks: seq<Lines>, deleted: set<int>, numbers: set<int>)
    requires AreFirsts(chunks, deleted, numbers)
    ensures Keep(Concat(chunks), numbers) == Concat(DropFirsts(chunks, deleted))
    decreases |chunks|
  {
    if chunks != [] {
      FirstsOfFront(chunks, deleted, numbers);
      FirstsDropped(Front(chunks), deleted, numbers);
      LastFirst(chunks, deleted, numbers);
      KeepChunk(Concat(Front(chunks)), Last(chunks), numbers);
      LastDropped(chunks, deleted, numbers);
      assert Front(DropFirsts(chunks, deleted)) == DropFirsts(Front(chunks), deleted);
    }
  }

  /** Two chunks hold no line in common. */
  lemma OnePlace<T>(chunks: seq<seq<T>>, c: nat, d: nat, i: nat, j: nat)
    requires 1 <= c <= |chunks| && 1 <= d <= |chunks| && i < |chunks[c - 1]| && j < |chunks[d - 1]|
    requires NewNumber(chunks, c) + i == NewNumber(chunks, d) + j
    ensures c == d && i == j
  {
    if c < d {
      NumbersAscend(chunks, c, d);
    } else if d < c {
      NumbersAscend(chunks, d, c);
    }
  }

  lemma OwnAreFirsts(chunks: seq<Lines>, deleted: set<int>)
    requires Standing(chunks, deleted)
    ensures AreFirsts(chunks, deleted, OwnNumbers(chunks, deleted))
  {
    var own := OwnNumbers(chunks, deleted);
    forall d | 1 <= d <= |chunks|
      ensures FirstOrNone(NewNumber(chunks, d), |chunks[d - 1]|, d in deleted, own)
    {
      var x := NewNumber(chunks, d);
      forall y | x <= y < x + |chunks[d - 1]| ensures y in own <==> d in deleted && y == x {
        if y in own {
          var c :| c in deleted && NewNumber(chunks, c) == y;
          OnePlace(chunks, c, d, 0, y - x);
        }
      }
    }
  }

  lemma {:induction false} SameKept(lines: Lines, d: set<int>, e: set<int>, h: nat)
    requires forall x :: 1 <= x <= |lines| ==> (x in d <==> x in e)
    ensures KeepFrom(lines, h, d) == KeepFrom(lines, h, e)
    decreases |lines| - h
  {
    if h < |lines| {
      SameKept(lines, d, e, h + 1);
    }
  }

  ghost predicate NoRepeats(lines: Lines) { forall i, j :: 0 <= i < j < |lines| ==> lines[i] != lines[j] }

  lemma {:induction false} KeptIsUndeleted(lines: Lines, deleted: set<int>, h: nat, k: nat)
    requires NoRepeats(lines) && k < |lines|
    ensures lines[k] in KeepFrom(lines, h, deleted) <==> h <= k && k + 1 !in deleted
    decreases |lines| - h
  {
    if h < |lines| {
      KeptIsUndeleted(lines, deleted, h + 1, k);
      assert h != k ==> lines[h] != lines[k];
    }
  }

  /** In a text that has no line twice, only the same numbers leave the same lines. */
  lemma SameNumbers(lines: Lines, d: set<int>, e: set<int>)
    requires NoRepeats(lines) && Keep(lines, d) == Keep(lines, e)
    ensures forall x :: 1 <= x <= |lines| ==> (x in d <==> x in e)
  {
    forall x | 1 <= x <= |lines| ensures x in d <==> x in e {
      KeptIsUndeleted(lines, d, 0, x - 1);
      KeptIsUndeleted(lines, e, 0, x - 1);
    }
  }

  /** The lines left are the ones meant when the numbers agree; and in a text that has no
      line twice, only then. */
  lemma MeantIff(chunks: seq<Lines>, deleted: set<int>)
    requires Standing(chunks, deleted)
    ensures
      var left, meant := Keep(Concat(chunks), deleted), Concat(DropFirsts(chunks, deleted));
      && (HitsItsLines(chunks, deleted) ==> left == meant)
      && (NoRepeats(Concat(chunks)) && left == meant ==> HitsItsLines(chunks, deleted))
  {
    var own := OwnNumbers(chunks, deleted);
    OwnAreFirsts(chunks, deleted);
    FirstsDropped(chunks, deleted, own);
    if HitsItsLines(chunks, deleted) {
      SameKept(Concat(chunks), deleted, own, 0);
    } else if NoRepeats(Concat(chunks)) && Keep(Concat(chunks), deleted) == Keep(Concat(chunks), own) {
      SameNumbers(Concat(chunks), deleted, own);
    }
  }

  // -------------------------------------------------------------- the net shift

  /** All lines of the edit are above line d. */
  predicate Above(e: Splice, d: int) { if e.inserts then e.lo < d else e.hi < d }

  /** By how many lines the edits above line d lengthen the text. */
  function NetShift(edits: seq<Splice>, d: int): int {
    if edits == [] then 0
    else
      var e := Last(edits);
      NetShift(Front(edits), d) + if Above(e, d) then |e.text| - (e.hi - e.lo) else 0
  }

  /** Line d is not replaced, or is the first of the lines an edit replaces. */
  predicate NotInside(edits: seq<Splice>, d: int) {
    forall k :: 0 <= k < |edits| && Covers(edits[k], d) ==> edits[k].lo + 1 == d
  }

  /** The lines an edit adds to what the first m lines become. */
  function Gain(e: Splice, m: int): int {
    if e.inserts then if e.lo <= m then |e.text| else 0
    else if m <= e.lo then 0
    else |e.text| - ((if m < e.hi then m else e.hi) - e.lo)
  }

  function Gains(edits: seq<Splice>, m: int): int {
    if edits == [] then 0 else Gains(Front(edits), m) + Gain(Last(edits), m)
  }

  lemma {:induction false} GainsAreShift(edits: seq<Splice>, d: nat, n: nat)
    requires NotInside(edits, d) && AllFit(edits, n) && d >= 1
    ensures Gains(edits, d - 1) == NetShift(edits, d)
    decreases |edits|
  {
    if edits != [] {
      var e := edits[|edits| - 1];
      assert Fits(e, n) && (Covers(e, d) ==> e.lo + 1 == d);
      GainsAreShift(Front(edits), d, n);
    }
  }

  /** An edit compatible with those done claims only what they leave alone. */
  lemma ClaimsTheFree(done: seq<Splice>, e: Splice, i: int)
    requires Compatible(done + [e])
    ensures Covers(e, i) ==> Covering(done, i).None?
    ensures InsertsAfter(e, i) ==> Inserting(done, i).None?
  {
    CoveringIs(done, i);
    InsertingIs(done, i);
    forall d | d in done ensures !(Covers(d, i) && Covers(e, i)) && !(InsertsAfter(d, i) && InsertsAfter(e, i)) {
      var k :| 0 <= k < |done| && done[k] == d;
      assert Apart((done + [e])[k], (done + [e])[|done|]);
    }
  }

  lemma ChunkGrows(lines: Lines, done: seq<Splice>, e: Splice, i: nat)
    requires Compatible(done + [e]) && Fits(e, |lines|) && 1 <= i <= |lines|
    ensures |Chunks(lines, done + [e])[i - 1]| == |Chunks(lines, done)[i - 1]| + Gain(e, i) - Gain(e, i - 1)
  {
    ClaimsTheFree(done, e, i);
    CoveringSnoc(done, e, i);
  }

  lemma {:induction false} PrefixGrows(lines: Lines, done: seq<Splice>, e: Splice, m: nat)
    requires Compatible(done + [e]) && Fits(e, |lines|) && m <= |lines|
    ensures |Concat(Chunks(lines, done + [e])[..m])| == |Concat(Chunks(lines, done)[..m])| + Gain(e, m)
    decreases m
  {
    if m > 0 {
      PrefixGrows(lines, done, e, m - 1);
      ChunkGrows(lines, done, e, m);
      assert Front(Chunks(lines, done + [e])[..m]) == Chunks(lines, done + [e])[..m - 1];
      assert Front(Chunks(lines, done)[..m]) == Chunks(lines, done)[..m - 1];
    }
  }

  lemma CompatibleFront(edits: seq<Splice>)
    requires edits != [] && Compatible(edits)
    ensures Compatible(Front(edits))
  {
    forall i, j | 0 <= i < j < |edits| - 1 ensures Apart(Front(edits)[i], Front(edits)[j]) {
      assert Apart(edits[i], edits[j]);
    }
  }

  lemma {:induction false} PrefixLength(lines: Lines, edits: seq<Splice>, m: nat)
    requires Compatible(edits) && AllFit(edits, |lines|) && m <= |lines|
    ensures |Concat(Chunks(lines, edits)[..m])| == m + Gains(edits, m)
    decreases |edits|
  {
    if edits == [] {
      SinglesKeepCount(Chunks(lines, edits)[..m]);
    } else {
      CompatibleFront(edits);
      assert Fits(edits[|edits| - 1], |lines|);
      PrefixLength(lines, Front(edits), m);
      assert edits == Front(edits) + [Last(edits)];
      PrefixGrows(lines, Front(edits), Last(edits), m);
    }
  }

  /** A line moves by what the edits above it add. */
  lemma NumberIsShifted(lines: Lines, edits: seq<Splice>, d: nat)
    requires Compatible(edits) && AllFit(edits, |lines|) && 1 <= d <= |lines| && NotInside(edits, d)
    ensures NewNumber(Chunks(lines, edits), d) == d + NetShift(edits, d)
  {
    PrefixLength(lines, edits, d - 1);
    GainsAreShift(edits, d, |lines|);
  }

  // -------------------------------------------------------------- the whole call

  ghost predicate AllHaveText(edits: seq<Splice>) { forall k :: 0 <= k < |edits| ==> edits[k].text != [] }

  /** What line d becomes starts with the line itself, or with that of the edit that replaces it. */
  lemma OwnLine(lines: Lines, edits: seq<Splice>, d: nat)
    requires 1 <= d <= |lines| && NotInside(edits, d) && AllHaveText(edits)
    ensures
      var chunk := Chunks(lines, edits)[d - 1];
      && chunk != []
      && ((chunk[0] == lines[d - 1] && forall k :: 0 <= k < |edits| ==> !Covers(edits[k], d))
          || exists k :: 0 <= k < |edits| && Covers(edits[k], d) && chunk[0] == edits[k].text[0])
  {
    CoveringIs(edits, d);
    if Covering(edits, d).Some? {
      var k :| 0 <= k < |edits| && edits[k] == Covering(edits, d).value;
    } else {
      forall k | 0 <= k < |edits| ensures !Covers(edits[k], d) {
        assert edits[k] in edits;
      }
    }
  }

  /** A call whose edits do not interfere and are in range, and whose deletes name lines that
      are not swallowed by a range. */
  ghost predicate Clear(content: string, edits: seq<LineEdit>, order: seq<LineEdit>) {
    && IsSorted(order, edits) && Independent(edits)
    && AllFit(Asked(edits), |Split(content)|) && DeletesInRange(edits, |Split(content)|)
    && forall d :: d in DeleteSet(edits) ==> NotInside(Asked(edits), d)
  }

  lemma {:induction false} AskedHaveText(edits: seq<LineEdit>)
    ensures AllHaveText(Asked(edits))
    decreases |edits|
  {
    if edits != [] {
      AskedHaveText(Front(edits));
    }
  }

  lemma {:induction false} DeletesAreLines(edits: seq<LineEdit>, n: nat)
    requires DeletesInRange(edits, n)
    ensures forall d :: d in DeleteSet(edits) ==> 1 <= d <= n
    decreases |edits|
  {
    if edits != [] {
      var e := edits[|edits| - 1];
      assert forall k :: 0 <= k < |e.delete| ==> 1 <= e.delete[k] <= n;
      forall i, k | 0 <= i < |Front(edits)| && 0 <= k < |Front(edits)[i].delete|
        ensures 1 <= Front(edits)[i].delete[k] <= n
      {
        assert Front(edits)[i] == edits[i];
      }
      DeletesAreLines(Front(edits), n);
    }
  }

  /** Any line d that is not swallowed, deleted or not: it (or the line that replaces it) is
      line d + shift of the text the deletes meet, so it goes exactly when that number is deleted. */
  lemma LineMoves(content: string, edits: seq<LineEdit>, order: seq<LineEdit>, d: nat)
    requires Clear(content, edits, order) && 1 <= d <= |Split(content)|
    requires NotInside(Asked(edits), d)
    ensures
      var lines, splices := Split(content), Asked(edits);
      var now, x := ApplyAll(lines, order), d + NetShift(splices, d);
      && now.Some? && 1 <= x <= |now.value|
      && ((now.value[x - 1] == lines[d - 1] && forall k :: 0 <= k < |splices| ==> !Covers(splices[k], d))
          || exists k :: 0 <= k < |splices| && [now.value[x - 1]] <= splices[k].text && Covers(splices[k], d))
  {
    var lines, splices := Split(content), Asked(edits);
    LineEditsAreSimultaneous(content, edits, order);
    AskedHaveText(edits);
    OwnLine(lines, splices, d);
    NumberIsShifted(lines, splices, d);
    ChunkStands(Chunks(lines, splices), d);
    var x, chunk := NewNumber(Chunks(lines, splices), d), Chunks(lines, splices)[d - 1];
    assert OneShot(lines, splices)[x - 1..x - 1 + |chunk|][0] == chunk[0];
  }

  lemma ShiftsAreNumbers(lines: Lines, splices: seq<Splice>, deleted: set<int>)
    requires Compatible(splices) && AllFit(splices, |lines|) && AllHaveText(splices)
    requires forall d :: d in deleted ==> 1 <= d <= |lines| && NotInside(splices, d)
    ensures Standing(Chunks(lines, splices), deleted)
    ensures forall d :: d in deleted ==> NewNumber(Chunks(lines, splices), d) == d + NetShift(splices, d)
  {
    forall d | d in deleted
      ensures Chunks(lines, splices)[d - 1] != [] && NewNumber(Chunks(lines, splices), d) == d + NetShift(splices, d)
    {
      OwnLine(lines, splices, d);
      NumberIsShifted(lines, splices, d);
    }
  }

  /** No delete has lines added or taken away above its own. */
  predicate NoShift(edits: seq<LineEdit>) {
    forall d :: d in DeleteSet(edits) ==> NetShift(Asked(edits), d) == 0
  }

  /** The text with the edits made and the deleted lines left out, all in original numbers. */
  function Meant(lines: Lines, edits: seq<LineEdit>): Lines {
    Concat(DropFirsts(Chunks(lines, Asked(edits)), DeleteSet(edits)))
  }

  /** The numbers deleted are those of the lines meant exactly when no delete has a shift
      above it. Then the call returns the text meant; and when the edited text has no line
      twice, only then are the lines left the ones meant. */
  lemma DeletesMeanOriginalLinesIff(content: string, edits: seq<LineEdit>, order: seq<LineEdit>) returns (now: Lines)
    requires Clear(content, edits, order)
    ensures Outcome(content, edits, order) == Ok((JoinLines(Keep(now, DeleteSet(edits))), AppliedCount(edits)))
    ensures
      var chunks := Chunks(Split(content), Asked(edits));
      && Standing(chunks, DeleteSet(edits)) && now == Concat(chunks)
      && (HitsItsLines(chunks, DeleteSet(edits)) <==> NoShift(edits))
    ensures NoShift(edits) ==> Keep(now, DeleteSet(edits)) == Meant(Split(content), edits)
    ensures NoRepeats(now) && Keep(now, DeleteSet(edits)) == Meant(Split(content), edits) ==> NoShift(edits)
  {
    var lines, splices, deleted := Split(content), Asked(edits), DeleteSet(edits);
    LineEditsAreSimultaneous(content, edits, order);
    now := OneShot(lines, splices);
    AskedHaveText(edits);
    DeletesAreLines(edits, |lines|);
    ShiftsAreNumbers(lines, splices, deleted);
    HitsItsLinesIff(Chunks(lines, splices), deleted);
    MeantIff(Chunks(lines, splices), deleted);
  }

  // ---------------------------------------------------------- two kinds of calls

  ghost predicate OnlySingleLines(edits: seq<LineEdit>) { forall k :: 0 <= k < |edits| ==> edits[k].line > 0 }

  lemma {:induction false} SinglesShiftNothing(edits: seq<LineEdit>, d: int)
    requires OnlySingleLines(edits)
    ensures NetShift(Splices(edits), d) == 0
    decreases |edits|
  {
    if edits != [] {
      SinglesShiftNothing(Front(edits), d);
      assert edits[|edits| - 1].line > 0;
      assert Front(Splices(edits)) == Splices(Front(edits));
    }
  }

  /** Deletes beside edits of single lines only always mean the lines of the original text. */
  lemma SinglesMeanOriginalLines(content: string, edits: seq<LineEdit>, order: seq<LineEdit>)
    requires IsSorted(order, edits) && Independent(edits) && OnlySingleLines(ActiveEdits(edits))
    requires DeletesInRange(edits, |Split(content)|) && AllFit(Asked(edits), |Split(content)|)
    ensures Outcome(content, edits, order) == Ok((JoinLines(Meant(Split(content), edits)), AppliedCount(edits)))
  {
    var active := ActiveEdits(edits);
    AskedAreActive(edits);
    forall d ensures NotInside(Splices(active), d) && NetShift(Splices(active), d) == 0 {
      forall k | 0 <= k < |active| && Covers(Splices(active)[k], d) ensures Splices(active)[k].lo + 1 == d {
        assert active[k].line > 0;
      }
      SinglesShiftNothing(active, d);
    }
    var now := DeletesMeanOriginalLinesIff(content, edits, order);
  }

  /** The second of two lines is deleted and a blank line put after the first. */
  const BLANK := LineEdit(0, 0, 0, 1, "", [])
  const REMOVE := LineEdit(0, 0, 0, 0, "", [2])

  lemma DeletesSnoc(edits: seq<LineEdit>, e: LineEdit)
    ensures forall d :: d in DeleteSet(edits + [e]) <==> d in DeleteSet(edits) || d in e.delete
  {
    assert Front(edits + [e]) == edits;
  }

  lemma SampleEdits()
    ensures ActiveEdits([BLANK, REMOVE]) == [BLANK] && AppliedCount([BLANK, REMOVE]) == 2
    ensures DeleteSet([BLANK, REMOVE]) == {2} && DeletesInRange([BLANK, REMOVE], 2)
    ensures NetShift(Splices([BLANK]), 2) == 1
  {
    assert Front([BLANK, REMOVE]) == [BLANK] && Front([BLANK]) == [];
    assert ActiveEdits([BLANK]) == [BLANK] && AppliedCount([BLANK]) == 1;
    DeletesSnoc([], BLANK);
    DeletesSnoc([BLANK], REMOVE);
    assert [] + [BLANK] == [BLANK] && [BLANK] + [REMOVE] == [BLANK, REMOVE];
    assert DeleteSet([]) == {} && REMOVE.delete[0] == 2;
    assert forall d :: d in DeleteSet([BLANK, REMOVE]) <==> d in {2};
    assert Front(Splices([BLANK])) == [] && Splices([BLANK])[0] == SpliceOf(BLANK);
  }

  lemma BlankIsPut(a: string, b: string)
    ensures ApplyAll([a, b], [BLANK]) == Some([a, "", b])
  {
    assert Front([BLANK]) == [];
    assert [a, b][..1] + [""] + [a, b][1..] == [a, "", b];
  }

  lemma BlankIsRemoved(a: string, b: string)
    ensures Keep([a, "", b], {2}) == [a, b]
  {
    assert KeepFrom([a, "", b], 2, {2}) == [b];
    assert KeepFrom([a, "", b], 1, {2}) == [b];
  }

  /** With an insertion above it a delete meets the shifted text: the blank line is taken
      away again, and the call returns the text it was given. */
  lemma InsertionShiftsDeletes(content: string)
    requires |Split(content)| == 2
    ensures IsSorted([BLANK], [BLANK, REMOVE]) && !NoShift([BLANK, REMOVE])
    ensures Outcome(content, [BLANK, REMOVE], [BLANK]) == Ok((content, 2))
  {
    var lines := Split(content);
    SampleEdits();
    AskedAreActive([BLANK, REMOVE]);
    assert lines == [lines[0], lines[1]];
    BlankIsPut(lines[0], lines[1]);
    BlankIsRemoved(lines[0], lines[1]);
    SplitJoin(content);
  }
}
