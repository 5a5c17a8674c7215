/** The editing of all lines at once, each edit in the original line numbers, and the proof
    that the pass from bottom to top does the same whenever the edits do not interfere. */
module SimultaneousEdits {
  import opened Wrappers
  import opened Text
  import opened LineEdits

  /** An edit reduced to its effect: lines lo+1 to hi are replaced by the text; an insertion
      has hi equal to lo. `range` marks an edit given as a range of lines. */
  datatype Splice = Splice(lo: int, hi: int, text: Lines, inserts: bool, range: bool)

  /** The number the splices are sorted by. */
  function Place(e: Splice): int { if e.inserts then e.lo else e.lo + 1 }

  /** A replacement of at least one line, or an insertion after a line. */
  predicate Shaped(e: Splice) { if e.inserts then 1 <= e.lo == e.hi else 0 <= e.lo < e.hi }

  predicate Fits(e: Splice, n: nat) { Shaped(e) && e.hi <= n }

  function Cut(lines: Lines, e: Splice): Option<Lines> {
    if Fits(e, |lines|) then Some(lines[..e.lo] + e.text + lines[e.hi..]) else None
  }

  function CutAll(lines: Lines, edits: seq<Splice>): Option<Lines> {
    if edits == [] then Some(lines)
    else
      var before := CutAll(lines, Front(edits));
      if before.None? then None else Cut(before.value, Last(edits))
  }

  /** Line i (counted from 1) is among those e replaces. */
  predicate Covers(e: Splice, i: int) { !e.inserts && e.lo < i <= e.hi }

  predicate InsertsAfter(e: Splice, i: int) { e.inserts && e.lo == i }

  function Covering(edits: seq<Splice>, i: int): Option<Splice> {
    if edits == [] then None else if Covers(Last(edits), i) then Some(Last(edits)) else Covering(Front(edits), i)
  }

  function Inserting(edits: seq<Splice>, i: int): Option<Splice> {
    if edits == [] then None else if InsertsAfter(Last(edits), i) then Some(Last(edits)) else Inserting(Front(edits), i)
  }

  lemma {:induction false} CoveringIs(edits: seq<Splice>, i: int)
    ensures Covering(edits, i).Some? ==> Covering(edits, i).value in edits && Covers(Covering(edits, i).value, i)
    ensures Covering(edits, i).None? ==> forall e :: e in edits ==> !Covers(e, i)
    decreases |edits|
  {
    if edits != [] {
      CoveringIs(Front(edits), i);
      assert edits == Front(edits) + [Last(edits)];
    }
  }

  lemma {:induction false} InsertingIs(edits: seq<Splice>, i: int)
    ensures Inserting(edits, i).Some? ==>
              Inserting(edits, i).value in edits && InsertsAfter(Inserting(edits, i).value, i)
    ensures Inserting(edits, i).None? ==> forall e :: e in edits ==> !InsertsAfter(e, i)
    decreases |edits|
  {
    if edits != [] {
      InsertingIs(Front(edits), i);
      assert edits == Front(edits) + [Last(edits)];
    }
  }

  /** What stands in place of line i: itself, or the replacement text at the first line replaced. */
  function Body(lines: Lines, edits: seq<Splice>, i: nat): Lines
    requires 1 <= i <= |lines|
  {
    var e := Covering(edits, i);
    if e.None? then [lines[i - 1]] else if i == e.value.lo + 1 then e.value.text else []
  }

  /** What is inserted after line i. */
  function Tail(edits: seq<Splice>, i: nat): Lines {
    var e := Inserting(edits, i);
    if e.None? then [] else e.value.text
  }

  /** For every original line what the edits make of it. */
  function Chunks(lines: Lines, edits: seq<Splice>): (r: seq<Lines>)
    ensures |r| == |lines|
  {
    seq(|lines|, k requires 0 <= k < |lines| => Body(lines, edits, k + 1) + Tail(edits, k + 1))
  }

  function Concat<T>(chunks: seq<seq<T>>): seq<T> {
    if chunks == [] then [] else Concat(Front(chunks)) + Last(chunks)
  }

  /** All edits at once: every original line is replaced by its text and its insertion. */
  function OneShot(lines: Lines, edits: seq<Splice>): Lines { Concat(Chunks(lines, edits)) }

  // -------------------------------------------------------------- interference

  /** Replaced lines do not overlap, insertions have different places, and no insertion is
      inside a replaced range or at the number of a range of one line. */
  predicate Apart(d: Splice, e: Splice) {
    if !d.inserts && !e.inserts then d.hi <= e.lo || e.hi <= d.lo
    else if d.inserts && e.inserts then d.lo != e.lo
    else if d.inserts then Beside(d, e)
    else Beside(e, d)
  }

  predicate Beside(ins: Splice, rep: Splice) {
    (ins.lo <= rep.lo || rep.hi <= ins.lo) && (rep.range ==> ins.lo != rep.lo + 1)
  }

  /** An edit of a single line puts a single line in its place. */
  predicate LineForLine(e: Splice) { !e.inserts && !e.range ==> |e.text| == 1 && e.hi == e.lo + 1 }

  ghost predicate Compatible(edits: seq<Splice>) {
    forall i, j :: 0 <= i < j < |edits| ==> Apart(edits[i], edits[j])
  }

  // ------------------------------------------------------ joining the chunks

  lemma {:induction false} ConcatSplit<T>(x: seq<seq<T>>, y: seq<seq<T>>)
    ensures Concat(x + y) == Concat(x) + Concat(y)
    decreases |y|
  {
    if y == [] {
      assert x + y == x;
    } else {
      ConcatSplit(x, Front(y));
      assert Front(x + y) == x + Front(y);
      assert Last(x + y) == Last(y);
    }
  }

  ghost predicate AllSingle<T>(chunks: seq<seq<T>>) { forall k :: 0 <= k < |chunks| ==> |chunks[k]| == 1 }

  lemma {:induction false} SinglesKeepCount<T>(chunks: seq<seq<T>>)
    requires AllSingle(chunks)
    ensures |Concat(chunks)| == |chunks|
    decreases |chunks|
  {
    if chunks != [] {
      assert |Last(chunks)| == 1;
      SinglesKeepCount(Front(chunks));
    }
  }

  /** The text in the first chunk, nothing in the others. */
  ghost predicate OnlyFirst<T>(chunks: seq<seq<T>>, text: seq<T>) {
    chunks != [] && chunks[0] == text && forall k :: 0 < k < |chunks| ==> chunks[k] == []
  }

  lemma {:induction false} OnlyFirstJoins<T>(chunks: seq<seq<T>>, text: seq<T>)
    requires OnlyFirst(chunks, text)
    ensures Concat(chunks) == text
    decreases |chunks|
  {
    if |chunks| == 1 {
      assert Concat(Front(chunks)) == [];
    } else {
      OnlyFirstJoins(Front(chunks), text);
      assert Last(chunks) == [];
    }
  }

  lemma ThreeParts<T>(chunks: seq<seq<T>>, lo: nat, hi: nat)
    requires lo <= hi <= |chunks|
    ensures Concat(chunks) == Concat(chunks[..lo]) + (Concat(chunks[lo..hi]) + Concat(chunks[hi..]))
  {
    Halves(chunks, lo);
    Halves(chunks[lo..], hi - lo);
    SliceTwice(chunks, lo, hi);
  }

  lemma SliceTwice<T>(s: seq<T>, lo: nat, hi: nat)
    requires lo <= hi <= |s|
    ensures s[lo..][..hi - lo] == s[lo..hi] && s[lo..][hi - lo..] == s[hi..]
  {}

  lemma LastChunk<T>(chunks: seq<seq<T>>, lo: nat, hi: nat)
    requires lo < hi <= |chunks|
    ensures Concat(chunks[lo..hi]) == Concat(chunks[lo..hi - 1]) + chunks[hi - 1]
  {
    assert Front(chunks[lo..hi]) == chunks[lo..hi - 1];
  }

  /** The chunks of q are those of p, except that lo to hi hold the text in place of a single
      element each; only the last of them keeps what p has behind that element. */
  ghost predicate ReplacedIn<T>(p: seq<seq<T>>, q: seq<seq<T>>, lo: nat, hi: nat, text: seq<T>) {
    && |q| == |p| && lo < hi <= |p| && q[..lo] == p[..lo] && q[hi..] == p[hi..]
    && AllSingle(p[..hi - 1]) && p[hi - 1] != []
    && TextThen(q[lo..hi], text, p[hi - 1][1..])
  }

  ghost predicate TextThen<T>(chunks: seq<seq<T>>, text: seq<T>, rest: seq<T>) {
    chunks != []
    && if |chunks| == 1 then chunks[0] == text + rest
       else OnlyFirst(Front(chunks), text) && Last(chunks) == rest
  }

  lemma TextThenJoins<T>(chunks: seq<seq<T>>, text: seq<T>, rest: seq<T>)
    requires TextThen(chunks, text, rest)
    ensures Concat(chunks) == text + rest
  {
    if |chunks| == 1 {
      assert Concat(Front(chunks)) == [];
    } else {
      OnlyFirstJoins(Front(chunks), text);
    }
  }

  lemma SlicesReplaced<T>(p: seq<seq<T>>, q: seq<seq<T>>, lo: nat, hi: nat, text: seq<T>)
    requires |q| == |p| && lo < hi <= |p| && q[0..lo] == p[0..lo] && q[hi..|p|] == p[hi..|p|]
    requires AllSingle(p[..hi - 1]) && p[hi - 1] != [] && TextThen(q[lo..hi], text, p[hi - 1][1..])
    ensures ReplacedIn(p, q, lo, hi, text)
  {
    assert q[..lo] == q[0..lo] && p[..lo] == p[0..lo];
  }

  lemma SliceOfSingles<T>(chunks: seq<seq<T>>, a: nat, b: nat, hi: nat)
    requires a <= b < hi <= |chunks| && AllSingle(chunks[..hi - 1])
    ensures |Concat(chunks[a..b])| == b - a
  {
    forall k | 0 <= k < b - a ensures |chunks[a..b][k]| == 1 {
      assert chunks[..hi - 1][a + k] == chunks[a + k];
    }
    SinglesKeepCount(chunks[a..b]);
  }

  lemma ReplacedJoins<T>(p: seq<seq<T>>, q: seq<seq<T>>, lo: nat, hi: nat, text: seq<T>)
    requires ReplacedIn(p, q, lo, hi, text)
    ensures hi <= |Concat(p)| && Concat(q) == Concat(p)[..lo] + text + Concat(p)[hi..]
  {
    TextThenJoins(q[lo..hi], text, p[hi - 1][1..]);
    ThreeParts(p, lo, hi);
    ThreeParts(q, lo, hi);
    LastChunk(p, lo, hi);
    SliceOfSingles(p, 0, lo, hi);
    SliceOfSingles(p, lo, hi - 1, hi);
    assert p[0..lo] == p[..lo];
    CutOpen(Concat(p[..lo]), Concat(p[lo..hi - 1]), p[hi - 1], Concat(p[hi..]), text);
  }

  lemma CutOpen<T>(head: seq<T>, kept: seq<T>, last: seq<T>, above: seq<T>, text: seq<T>)
    requires last != []
    ensures
      var all, lo := head + ((kept + last) + above), |head|;
      var hi := lo + |kept| + 1;
      hi <= |all| && head + ((text + last[1..]) + above) == all[..lo] + text + all[hi..]
  {
    var all := head + ((kept + last) + above);
    assert all[..|head|] == head;
    assert all[|head| + |kept| + 1..] == last[1..] + above;
  }

  /** The text is put behind the first `at` chunks, single elements all of them. */
  lemma InsertedJoins<T>(p: seq<seq<T>>, q: seq<seq<T>>, at: nat, text: seq<T>)
    requires 1 <= at <= |p| == |q| && AllSingle(p[..at])
    requires q[..at - 1] == p[..at - 1] && q[at - 1] == p[at - 1] + text && q[at..] == p[at..]
    ensures at <= |Concat(p)| && Concat(q) == Concat(p)[..at] + text + Concat(p)[at..]
  {
    SinglesKeepCount(p[..at]);
    Halves(p, at);
    Halves(q, at);
    assert Front(p[..at]) == p[..at - 1] && Front(q[..at]) == p[..at - 1];
    CutAt(Concat(p[..at - 1]), p[at - 1], Concat(p[at..]), text);
  }

  lemma Halves<T>(chunks: seq<seq<T>>, at: nat)
    requires at <= |chunks|
    ensures Concat(chunks) == Concat(chunks[..at]) + Concat(chunks[at..])
  {
    assert chunks == chunks[..at] + chunks[at..];
    ConcatSplit(chunks[..at], chunks[at..]);
  }

  lemma CutAt<T>(head: seq<T>, own: seq<T>, above: seq<T>, text: seq<T>)
    ensures
      var all, at := (head + own) + above, |head + own|;
      (head + (own + text)) + above == all[..at] + text + all[at..]
  {
    var all := (head + own) + above;
    assert all[..|head + own|] == head + own;
    assert all[|head + own|..] == above;
  }

  // ------------------------------------------------- adding the next edit down

  /** e comes next from below: its key is not above any of those done, and it is apart from them. */
  ghost predicate NextDown(done: seq<Splice>, e: Splice) {
    forall k :: 0 <= k < |done| ==> Place(done[k]) >= Place(e) && Apart(done[k], e) && LineForLine(done[k])
  }

  lemma CoveringSnoc(done: seq<Splice>, e: Splice, i: int)
    ensures Covering(done + [e], i) == if Covers(e, i) then Some(e) else Covering(done, i)
    ensures Inserting(done + [e], i) == if InsertsAfter(e, i) then Some(e) else Inserting(done, i)
  {
    assert Front(done + [e]) == done;
  }

  ghost predicate AllFit(edits: seq<Splice>, n: nat) { forall k :: 0 <= k < |edits| ==> Fits(edits[k], n) }

  /** Line i is one line still, and nothing is inserted after it. */
  predicate Untouched(lines: Lines, edits: seq<Splice>, i: nat)
    requires 1 <= i <= |lines|
  {
    |Body(lines, edits, i)| == 1 && Tail(edits, i) == []
  }

  /** Below the lines of e the text is still the original one, line by line. */
  lemma BelowIsUntouched(lines: Lines, done: seq<Splice>, e: Splice, i: nat)
    requires NextDown(done, e) && Fits(e, |lines|) && 1 <= i <= |lines|
    requires i < e.hi || (e.inserts && i == e.hi)
    requires AllFit(done, |lines|)
    ensures Untouched(lines, done, i)
  {
    CoveringIs(done, i);
    InsertingIs(done, i);
    forall d | d in done ensures !InsertsAfter(d, i) && (Covers(d, i) ==> |d.text| == 1 && d.lo + 1 == i) {
      var k :| 0 <= k < |done| && done[k] == d;
      assert Place(done[k]) >= Place(e) && Apart(done[k], e);
    }
  }

  /** The last replaced line: its own text is still there, an insertion after it may be too. */
  lemma LastIsOwn(lines: Lines, done: seq<Splice>, e: Splice)
    requires NextDown(done, e) && Fits(e, |lines|) && !e.inserts && AllFit(done, |lines|)
    ensures |Body(lines, done, e.hi)| == 1
  {
    CoveringIs(done, e.hi);
    forall d | d in done ensures !Covers(d, e.hi) {
      var k :| 0 <= k < |done| && done[k] == d;
      assert Place(done[k]) >= Place(e) && Apart(done[k], e);
    }
  }

  /** What e makes of line b, whose own text was still there. */
  lemma ReplacedLine(lines: Lines, done: seq<Splice>, e: Splice, b: nat)
    requires Fits(e, |lines|) && !e.inserts && e.lo < b <= e.hi
    ensures Chunks(lines, done + [e])[b - 1] == (if b == e.lo + 1 then e.text else []) + Tail(done, b)
  {
    CoveringSnoc(done, e, b);
  }

  lemma OtherLine(lines: Lines, done: seq<Splice>, e: Splice, b: nat)
    requires 1 <= b <= |lines| && !Covers(e, b) && !InsertsAfter(e, b)
    ensures Chunks(lines, done + [e])[b - 1] == Chunks(lines, done)[b - 1]
  {
    CoveringSnoc(done, e, b);
  }

  lemma OthersSame(lines: Lines, done: seq<Splice>, e: Splice, a: nat, b: nat)
    requires a <= b <= |lines| && forall i: nat :: a < i <= b ==> !Covers(e, i) && !InsertsAfter(e, i)
    ensures Chunks(lines, done + [e])[a..b] == Chunks(lines, done)[a..b]
  {
    forall i | a <= i < b ensures Chunks(lines, done + [e])[i] == Chunks(lines, done)[i] {
      OtherLine(lines, done, e, i + 1);
    }
  }

  lemma SinglesBelow(lines: Lines, done: seq<Splice>, e: Splice, b: nat)
    requires NextDown(done, e) && Fits(e, |lines|) && AllFit(done, |lines|)
    requires b < e.hi || (e.inserts && b == e.hi)
    ensures AllSingle(Chunks(lines, done)[..b])
  {
    forall i | 0 <= i < b ensures |Chunks(lines, done)[..b][i]| == 1 {
      BelowIsUntouched(lines, done, e, i + 1);
    }
  }

  lemma TextLine(lines: Lines, done: seq<Splice>, e: Splice, b: nat)
    requires NextDown(done, e) && Fits(e, |lines|) && !e.inserts && AllFit(done, |lines|) && e.lo < b < e.hi
    ensures Chunks(lines, done + [e])[b - 1] == if b == e.lo + 1 then e.text else []
  {
    ReplacedLine(lines, done, e, b);
    BelowIsUntouched(lines, done, e, b);
  }

  lemma TextInLines(lines: Lines, done: seq<Splice>, e: Splice)
    requires NextDown(done, e) && Fits(e, |lines|) && !e.inserts && AllFit(done, |lines|)
    ensures TextThen(Chunks(lines, done + [e])[e.lo..e.hi], e.text, Tail(done, e.hi))
  {
    ReplacedLine(lines, done, e, e.hi);
    forall i: nat | e.lo <= i < e.hi - 1 ensures Chunks(lines, done + [e])[i] == if i == e.lo then e.text else [] {
      TextLine(lines, done, e, i + 1);
    }
    TextSlice(Chunks(lines, done + [e]), e.lo, e.hi, e.text, Tail(done, e.hi));
  }

  lemma TextSlice<T>(q: seq<seq<T>>, lo: nat, hi: nat, text: seq<T>, rest: seq<T>)
    requires lo < hi <= |q| && forall i: nat :: lo <= i < hi - 1 ==> q[i] == if i == lo then text else []
    requires q[hi - 1] == (if hi == lo + 1 then text else []) + rest
    ensures TextThen(q[lo..hi], text, rest)
  {
    var mine := q[lo..hi];
    forall k | 0 <= k < |mine| - 1 ensures mine[k] == if k == 0 then text else [] {
      assert mine[k] == q[lo + k];
    }
  }

  lemma LastRest(lines: Lines, done: seq<Splice>, e: Splice)
    requires NextDown(done, e) && Fits(e, |lines|) && !e.inserts && AllFit(done, |lines|)
    ensures Chunks(lines, done)[e.hi - 1] != [] && Chunks(lines, done)[e.hi - 1][1..] == Tail(done, e.hi)
  {
    LastIsOwn(lines, done, e);
  }

  lemma ChunksReplaced(lines: Lines, done: seq<Splice>, e: Splice)
    requires NextDown(done, e) && Fits(e, |lines|) && !e.inserts && AllFit(done, |lines|)
    ensures ReplacedIn(Chunks(lines, done), Chunks(lines, done + [e]), e.lo, e.hi, e.text)
  {
    OthersSame(lines, done, e, 0, e.lo);
    OthersSame(lines, done, e, e.hi, |lines|);
    SinglesBelow(lines, done, e, e.hi - 1);
    LastRest(lines, done, e);
    TextInLines(lines, done, e);
    SlicesReplaced(Chunks(lines, done), Chunks(lines, done + [e]), e.lo, e.hi, e.text);
  }

  /** A replacement: the text before and after its lines, with the new lines in between. */
  lemma ReplaceStep(lines: Lines, done: seq<Splice>, e: Splice)
    requires NextDown(done, e) && Fits(e, |lines|) && !e.inserts && AllFit(done, |lines|)
    ensures e.hi <= |OneShot(lines, done)|
    ensures OneShot(lines, done + [e]) == OneShot(lines, done)[..e.lo] + e.text + OneShot(lines, done)[e.hi..]
  {
    ChunksReplaced(lines, done, e);
    ReplacedJoins(Chunks(lines, done), Chunks(lines, done + [e]), e.lo, e.hi, e.text);
  }

  lemma InsertedLine(lines: Lines, done: seq<Splice>, e: Splice)
    requires NextDown(done, e) && Fits(e, |lines|) && e.inserts && AllFit(done, |lines|)
    ensures Chunks(lines, done + [e])[e.lo - 1] == Chunks(lines, done)[e.lo - 1] + e.text
  {
    CoveringSnoc(done, e, e.lo);
    BelowIsUntouched(lines, done, e, e.lo);
  }

  /** An insertion: everything up to its line, the new lines, everything after. */
  lemma InsertStep(lines: Lines, done: seq<Splice>, e: Splice)
    requires NextDown(done, e) && Fits(e, |lines|) && e.inserts && AllFit(done, |lines|)
    ensures e.hi <= |OneShot(lines, done)|
    ensures OneShot(lines, done + [e]) == OneShot(lines, done)[..e.lo] + e.text + OneShot(lines, done)[e.hi..]
  {
    var n := |lines|;
    OthersSame(lines, done, e, 0, e.lo - 1);
    OthersSame(lines, done, e, e.lo, n);
    SinglesBelow(lines, done, e, e.lo);
    InsertedLine(lines, done, e);
    InsertedJoins(Chunks(lines, done), Chunks(lines, done + [e]), e.lo, e.text);
  }

  // ---------------------------------------------------------- the whole pass

  ghost predicate TopDown(edits: seq<Splice>) {
    forall i, j :: 0 <= i < j < |edits| ==> Place(edits[i]) >= Place(edits[j])
  }

  ghost predicate AllLineForLine(edits: seq<Splice>) { forall k :: 0 <= k < |edits| ==> LineForLine(edits[k]) }

  lemma AboveFits(d: Splice, e: Splice, n: nat)
    requires Place(d) >= Place(e) && Apart(d, e) && Fits(d, n) && Shaped(e)
    ensures e.hi <= n
  {}

  /** An edit that does not fit the original text is met by a text nothing above it has changed. */
  lemma MisfitComesFirst(done: seq<Splice>, e: Splice, n: nat)
    requires NextDown(done, e) && AllFit(done, n) && Shaped(e)
    ensures done == [] || e.hi <= n
  {
    if done != [] {
      AboveFits(done[0], e, n);
    }
  }

  lemma OneStep(lines: Lines, done: seq<Splice>, e: Splice)
    requires NextDown(done, e) && AllFit(done, |lines|)
    ensures Cut(OneShot(lines, done), e) == if Fits(e, |lines|) then Some(OneShot(lines, done + [e])) else None
  {
    if Fits(e, |lines|) {
      if e.inserts {
        InsertStep(lines, done, e);
      } else {
        ReplaceStep(lines, done, e);
      }
    } else if Shaped(e) {
      MisfitComesFirst(done, e, |lines|);
      NothingDone(lines);
    }
  }

  lemma NothingDone(lines: Lines)
    ensures OneShot(lines, []) == lines
  {
    assert forall k :: 0 <= k < |lines| ==> Chunks(lines, [])[k] == [lines[k]];
    LinesOfTheirOwn(lines, Chunks(lines, []));
  }

  lemma {:induction false} LinesOfTheirOwn<T>(s: seq<T>, chunks: seq<seq<T>>)
    requires |chunks| == |s| && forall k :: 0 <= k < |s| ==> chunks[k] == [s[k]]
    ensures Concat(chunks) == s
    decreases |s|
  {
    if s != [] {
      LinesOfTheirOwn(Front(s), Front(chunks));
      assert s == Front(s) + [Last(s)];
    }
  }

  /** Bottom to top, one edit after the other, is the same as all at once; and the pass fails
      exactly when some edit is out of range in the original text. */
  lemma {:induction false} PassIsOneShot(lines: Lines, edits: seq<Splice>)
    requires TopDown(edits) && Compatible(edits) && AllLineForLine(edits)
    ensures CutAll(lines, edits) == if AllFit(edits, |lines|) then Some(OneShot(lines, edits)) else None
    decreases |edits|
  {
    if edits == [] {
      NothingDone(lines);
    } else {
      var done, e := Front(edits), Last(edits);
      PassIsOneShot(lines, done);
      assert edits == done + [e];
      assert NextDown(done, e) by {
        forall k | 0 <= k < |done| ensures Place(done[k]) >= Place(e) && Apart(done[k], e) && LineForLine(done[k]) {
          assert done[k] == edits[k] && e == edits[|edits| - 1];
        }
      }
      assert AllFit(edits, |lines|) <==> AllFit(done, |lines|) && Fits(e, |lines|);
      if AllFit(done, |lines|) {
        OneStep(lines, done, e);
      }
    }
  }

  // ------------------------------------------------ the order does not matter

  ghost predicate SameElements(d: seq<Splice>, e: seq<Splice>) { forall x :: x in d <==> x in e }

  predicate BothClaim(d: Splice, e: Splice, i: int) {
    (Covers(d, i) && Covers(e, i)) || (InsertsAfter(d, i) && InsertsAfter(e, i))
  }

  /** Two compatible edits never claim the same line, nor the same place of insertion. */
  lemma ClaimsAreUnique(edits: seq<Splice>, d: Splice, e: Splice, i: int)
    requires Compatible(edits) && d in edits && e in edits && BothClaim(d, e, i)
    ensures d == e
  {
    forall j, k | 0 <= j < k < |edits| ensures !BothClaim(edits[j], edits[k], i) {
      assert Apart(edits[j], edits[k]);
    }
    var j :| 0 <= j < |edits| && edits[j] == d;
    var k :| 0 <= k < |edits| && edits[k] == e;
  }

  lemma SameClaims(d: seq<Splice>, e: seq<Splice>, i: int)
    requires Compatible(d) && SameElements(d, e)
    ensures Covering(d, i) == Covering(e, i) && Inserting(d, i) == Inserting(e, i)
  {
    CoveringIs(d, i);
    CoveringIs(e, i);
    InsertingIs(d, i);
    InsertingIs(e, i);
    if Covering(d, i).Some? && Covering(e, i).Some? {
      ClaimsAreUnique(d, Covering(d, i).value, Covering(e, i).value, i);
    }
    if Inserting(d, i).Some? && Inserting(e, i).Some? {
      ClaimsAreUnique(d, Inserting(d, i).value, Inserting(e, i).value, i);
    }
  }

  lemma OrderIrrelevant(lines: Lines, d: seq<Splice>, e: seq<Splice>)
    requires Compatible(d) && SameElements(d, e)
    ensures OneShot(lines, d) == OneShot(lines, e)
  {
    forall k | 0 <= k < |lines| ensures Chunks(lines, d)[k] == Chunks(lines, e)[k] {
      SameClaims(d, e, k + 1);
    }
    assert Chunks(lines, d) == Chunks(lines, e);
  }

  // ------------------------------------------------------- back to line edits

  /** Numbers that are given are positive, and at least one is given. */
  predicate Plain(e: LineEdit) { e.line >= 0 && e.from >= 0 && e.after >= 0 && Active(e) }

  /** What the JSON fields ask for: the line gets the content; or the range, up to its own
      first line when no end is given, gets the lines of the content; or these are put behind
      a line. */
  function SpliceOf(e: LineEdit): Splice {
    if e.line > 0 then Splice(e.line - 1, e.line, [e.content], false, false)
    else if e.from > 0 then Splice(e.from - 1, if e.to == 0 then e.from else e.to, Split(e.content), false, true)
    else Splice(e.after, e.after, Split(e.content), true, false)
  }

  function Splices(edits: seq<LineEdit>): (r: seq<Splice>)
    ensures |r| == |edits|
  {
    seq(|edits|, k requires 0 <= k < |edits| => SpliceOf(edits[k]))
  }

  lemma SpliceActs(lines: Lines, e: LineEdit)
    requires Plain(e)
    ensures Cut(lines, SpliceOf(e)) == ApplyOne(lines, e)
    ensures Place(SpliceOf(e)) == Key(e) && LineForLine(SpliceOf(e))
  {}

  ghost predicate AllPlain(edits: seq<LineEdit>) { forall k :: 0 <= k < |edits| ==> Plain(edits[k]) }

  lemma {:induction false} SplicesAct(lines: Lines, edits: seq<LineEdit>)
    requires AllPlain(edits)
    ensures CutAll(lines, Splices(edits)) == ApplyAll(lines, edits)
    decreases |edits|
  {
    if edits != [] {
      SplicesAct(lines, Front(edits));
      assert Front(Splices(edits)) == Splices(Front(edits));
      assert Plain(Last(edits));
      var before := ApplyAll(lines, Front(edits));
      if before.Some? {
        SpliceActs(before.value, Last(edits));
      }
    }
  }

  /** The splices a call asks for; an edit that names no line only deletes, or does nothing. */
  function Asked(edits: seq<LineEdit>): seq<Splice> {
    if edits == [] then []
    else
      var e := Last(edits);
      Asked(Front(edits)) + if e.line > 0 || e.from > 0 || e.after > 0 then [SpliceOf(e)] else []
  }

  lemma {:induction false} AskedAreActive(edits: seq<LineEdit>)
    ensures Asked(edits) == Splices(ActiveEdits(edits))
    decreases |edits|
  {
    if edits != [] {
      AskedAreActive(Front(edits));
      var before, e := ActiveEdits(Front(edits)), Last(edits);
      assert Splices(before + [e]) == Splices(before) + [SpliceOf(e)];
    }
  }

  /** The active edits do not interfere with each other. */
  ghost predicate Independent(edits: seq<LineEdit>) {
    AllPlain(ActiveEdits(edits)) && Compatible(Asked(edits))
  }

  lemma ApartIsSymmetric(d: Splice, e: Splice)
    ensures Apart(d, e) <==> Apart(e, d)
  {}

  /** A reordering of compatible edits is compatible. */
  lemma CompatibleIsUnordered(order: seq<LineEdit>, edits: seq<LineEdit>)
    requires multiset(order) == multiset(edits) && Compatible(Splices(edits)) && AllPlain(edits)
    ensures Compatible(Splices(order)) && AllPlain(order) && SameElements(Splices(edits), Splices(order))
  {
    SameMembers(order, edits);
    forall k | 0 <= k < |order| ensures Plain(order[k]) {
      assert order[k] in order && order[k] in edits;
    }
    forall i, j | 0 <= i < j < |order| ensures Apart(Splices(order)[i], Splices(order)[j]) {
      var a, b := TwoPositions(order, edits, i, j);
      if a < b {
        assert Apart(Splices(edits)[a], Splices(edits)[b]);
      } else {
        assert Apart(Splices(edits)[b], Splices(edits)[a]);
      }
      ApartIsSymmetric(SpliceOf(order[i]), SpliceOf(order[j]));
    }
    forall x | x in Splices(edits) ensures x in Splices(order) {
      var k :| 0 <= k < |edits| && SpliceOf(edits[k]) == x;
      assert edits[k] in edits && edits[k] in order;
      var m :| 0 <= m < |order| && order[m] == edits[k];
      assert Splices(order)[m] == x;
    }
    forall x | x in Splices(order) ensures x in Splices(edits) {
      var k :| 0 <= k < |order| && SpliceOf(order[k]) == x;
      assert order[k] in order && order[k] in edits;
      var m :| 0 <= m < |edits| && edits[m] == order[k];
      assert Splices(edits)[m] == x;
    }
  }

  lemma SameMembers(order: seq<LineEdit>, edits: seq<LineEdit>)
    requires multiset(order) == multiset(edits)
    ensures forall x :: x in order <==> x in edits
  {
    forall x ensures x in order <==> x in edits {
      assert x in order <==> x in multiset(order);
      assert x in edits <==> x in multiset(edits);
    }
  }

  /** Everything but position k. */
  function Without<T>(s: seq<T>, k: nat): seq<T>
    requires k < |s|
  {
    s[..k] + s[k + 1..]
  }

  lemma WithoutOne<T>(s: seq<T>, k: nat)
    requires k < |s|
    ensures multiset(s) == multiset(Without(s, k)) + multiset{s[k]}
  {
    assert s == s[..k] + [s[k]] + s[k + 1..];
  }

  lemma SameWithout<T>(s: seq<T>, t: seq<T>, i: nat, a: nat)
    requires multiset(s) == multiset(t) && i < |s| && a < |t| && s[i] == t[a]
    ensures multiset(Without(s, i)) == multiset(Without(t, a))
  {
    WithoutOne(s, i);
    WithoutOne(t, a);
    Cancel(multiset(Without(s, i)), multiset(Without(t, a)), multiset{s[i]});
  }

  lemma Cancel<T>(x: multiset<T>, y: multiset<T>, z: multiset<T>)
    requires x + z == y + z
    ensures x == y
  {
    assert (x + z) - z == x && (y + z) - z == y;
  }

  lemma SomewhereElse<T>(s: seq<T>, t: seq<T>, i: nat) returns (a: nat)
    requires multiset(s) == multiset(t) && i < |s|
    ensures a < |t| && t[a] == s[i]
  {
    assert s[i] in multiset(t);
    a :| a < |t| && t[a] == s[i];
  }

  /** Two positions of a reordering come from two different positions. */
  lemma TwoPositions(order: seq<LineEdit>, edits: seq<LineEdit>, i: nat, j: nat) returns (a: nat, b: nat)
    requires multiset(order) == multiset(edits) && i < j < |order|
    ensures a < |edits| && b < |edits| && a != b && edits[a] == order[i] && edits[b] == order[j]
  {
    a := SomewhereElse(order, edits, i);
    SameWithout(order, edits, i, a);
    assert Without(order, i)[j - 1] == order[j];
    var m := SomewhereElse(Without(order, i), Without(edits, a), j - 1);
    b := if m < a then m else m + 1;
  }

  /** For edits that do not interfere, whatever order the sort leaves equal keys in: the pass
      gives the text with all edits made at once in original line numbers, and fails exactly
      when one of them is out of range in the original text. */
  lemma LineEditsAreSimultaneous(content: string, edits: seq<LineEdit>, order: seq<LineEdit>)
    requires IsSorted(order, edits) && Independent(edits)
    ensures
      var lines := Split(content);
      ApplyAll(lines, order) == if AllFit(Asked(edits), |lines|) then Some(OneShot(lines, Asked(edits))) else None
  {
    var lines, active := Split(content), ActiveEdits(edits);
    AskedAreActive(edits);
    CompatibleIsUnordered(order, active);
    SplicesAct(lines, order);
    var splices := Splices(order);
    forall i, j | 0 <= i < j < |splices| ensures Place(splices[i]) >= Place(splices[j]) {
      assert Plain(order[i]) && Plain(order[j]) && Key(order[i]) >= Key(order[j]);
      SpliceActs(lines, order[i]);
      SpliceActs(lines, order[j]);
    }
    forall k | 0 <= k < |splices| ensures LineForLine(splices[k]) {
      assert Plain(order[k]);
      SpliceActs(lines, order[k]);
    }
    PassIsOneShot(lines, splices);
    OrderIrrelevant(lines, Splices(active), splices);
    FitTogether(Splices(active), splices, |lines|);
  }

  lemma FitTogether(d: seq<Splice>, e: seq<Splice>, n: nat)
    requires SameElements(d, e)
    ensures AllFit(d, n) <==> AllFit(e, n)
  {
    FitsAll(d, n);
    FitsAll(e, n);
  }

  lemma FitsAll(edits: seq<Splice>, n: nat)
    ensures AllFit(edits, n) <==> forall x :: x in edits ==> Fits(x, n)
  {
    if forall x :: x in edits ==> Fits(x, n) {
      forall k | 0 <= k < |edits| ensures Fits(edits[k], n) {
        assert edits[k] in edits;
      }
    }
  }
}
