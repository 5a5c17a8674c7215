/** tools/editing.go: line edits applied one after the other, from the bottom of the text
    to the top, against the editing of all lines at once in their original numbers. */
module LineEdits {
  import opened Wrappers
  import opened Text

  /** One edit, with zero for an absent number, as it arrives in JSON. */
  datatype LineEdit = LineEdit(line: int, from: int, to: int, after: int, content: string, delete: seq<int>)

  type Lines = seq<string>

  // ---------------------------------------------------------- lines of a text

  /** strings.Split at newlines. */
  function Split(s: string): (r: Lines)
    ensures r != []
  {
    if s == "" then [""]
    else
      var rest := Split(s[1..]);
      if s[0] == '\n' then [""] + rest else [[s[0]] + rest[0]] + rest[1..]
  }

  function JoinLines(lines: Lines): string {
    if lines == [] then "" else if |lines| == 1 then lines[0] else lines[0] + ['\n'] + JoinLines(lines[1..])
  }

  /** Splitting loses nothing, and no line contains a newline. */
  lemma {:induction false} SplitJoin(s: string)
    ensures JoinLines(Split(s)) == s
    ensures forall k :: 0 <= k < |Split(s)| ==> '\n' !in Split(s)[k]
    decreases |s|
  {
    if s != "" {
      SplitJoin(s[1..]);
      var rest := Split(s[1..]);
      if s[0] == '\n' {
        assert ([""] + rest)[1..] == rest;
      } else {
        assert ([[s[0]] + rest[0]] + rest[1..])[1..] == rest[1..];
      }
      assert s == [s[0]] + s[1..];
    }
  }

  // --------------------------------------------------------------- one edit

  predicate Active(e: LineEdit) { e.line > 0 || e.from > 0 || e.after > 0 }

  /** The number the edits are sorted by. */
  function Key(e: LineEdit): int { if e.line != 0 then e.line else if e.from != 0 then e.from else e.after }

  predicate Inserts(e: LineEdit) { e.line <= 0 && e.from <= 0 }

  /** Lines lo+1 to hi of the text are replaced; for an insertion lo and hi coincide. */
  function Lo(e: LineEdit): int { if e.line > 0 then e.line - 1 else if e.from > 0 then e.from - 1 else e.after }

  function Hi(e: LineEdit): int {
    if e.line > 0 then e.line
    else if e.from > 0 then (if e.to == 0 then e.from else e.to)
    else e.after
  }

  function NewLines(e: LineEdit): Lines { if e.line > 0 then [e.content] else Split(e.content) }

  predicate InRange(e: LineEdit, n: nat) { 0 <= Lo(e) <= Hi(e) <= n && (Inserts(e) || Lo(e) < Hi(e)) }

  function ApplyOne(lines: Lines, e: LineEdit): Option<Lines> {
    if InRange(e, |lines|) then Some(lines[..Lo(e)] + NewLines(e) + lines[Hi(e)..]) else None
  }

  /** The edits in the given order, each on the result of those before. */
  function ApplyAll(lines: Lines, edits: seq<LineEdit>): Option<Lines> {
    if edits == [] then Some(lines)
    else
      var before := ApplyAll(lines, Front(edits));
      if before.None? then None else ApplyOne(before.value, Last(edits))
  }

  function ActiveEdits(edits: seq<LineEdit>): seq<LineEdit> {
    if edits == [] then [] else ActiveEdits(Front(edits)) + if Active(Last(edits)) then [Last(edits)] else []
  }

  ghost predicate Descending(edits: seq<LineEdit>) {
    forall i, j :: 0 <= i < j < |edits| ==> Key(edits[i]) >= Key(edits[j])
  }

  /** What sort.Slice may leave behind: it is not stable, so any descending order. */
  ghost predicate IsSorted(order: seq<LineEdit>, edits: seq<LineEdit>) {
    multiset(order) == multiset(ActiveEdits(edits)) && Descending(order)
  }

  // ------------------------------------------------------------------ deletes

  function DeleteSet(edits: seq<LineEdit>): set<int> {
    if edits == [] then {} else DeleteSet(Front(edits)) + set d | d in Last(edits).delete
  }

  predicate DeletesInRange(edits: seq<LineEdit>, n: nat) {
    forall i, k :: 0 <= i < |edits| && 0 <= k < |edits[i].delete| ==> 1 <= edits[i].delete[k] <= n
  }

  /** The elements of s up to hi, from high to low. */
  function HighToLow(s: set<int>, hi: nat): seq<int> {
    if hi == 0 then [] else (if hi in s then [hi] else []) + HighToLow(s, hi - 1)
  }

  /** The lines after position h whose numbers are not deleted. */
  function KeepFrom(lines: Lines, h: nat, deleted: set<int>): Lines
    decreases |lines| - h
  {
    if h >= |lines| then []
    else (if h + 1 in deleted then [] else [lines[h]]) + KeepFrom(lines, h + 1, deleted)
  }

  /** The lines that are not deleted, in order. */
  function Keep(lines: Lines, deleted: set<int>): Lines { KeepFrom(lines, 0, deleted) }

  lemma {:induction false} SkipUndeleted(lines: Lines, lo: nat, hi: nat, deleted: set<int>)
    requires lo <= hi <= |lines| && forall d :: lo < d <= hi ==> d !in deleted
    ensures KeepFrom(lines, lo, deleted) == lines[lo..hi] + KeepFrom(lines, hi, deleted)
    decreases hi - lo
  {
    if lo < hi {
      SkipUndeleted(lines, lo + 1, hi, deleted);
      var rest := KeepFrom(lines, hi, deleted);
      assert KeepFrom(lines, lo, deleted) == [lines[lo]] + (lines[lo + 1..hi] + rest);
      assert lines[lo..hi] == [lines[lo]] + lines[lo + 1..hi];
    } else {
      assert lines[lo..hi] == [];
    }
  }

  lemma {:induction false} HighestFirst(s: set<int>, hi: nat)
    requires HighToLow(s, hi) != []
    ensures
      var d := HighToLow(s, hi)[0];
      && 1 <= d <= hi && d in s
      && (forall x :: d < x <= hi ==> x !in s)
      && HighToLow(s, hi) == [d] + HighToLow(s, d - 1)
    decreases hi
  {
    if hi > 0 && hi !in s {
      HighestFirst(s, hi - 1);
    }
  }

  lemma {:induction false} NoneLeft(s: set<int>, hi: nat)
    requires HighToLow(s, hi) == []
    ensures forall x :: 1 <= x <= hi ==> x !in s
    decreases hi
  {
    if hi > 0 {
      NoneLeft(s, hi - 1);
    }
  }

  /** The text when all deletes above position h are done. */
  function DeletedAbove(input: Lines, h: nat, deleted: set<int>): Lines {
    if h >= |input| then input else input[..h] + KeepFrom(input, h, deleted)
  }

  /** Deleting from the highest number to the lowest leaves exactly the lines not named. */
  method DeleteLines(input: Lines, deleted: set<int>, n: nat) returns (lines: Lines)
    requires forall d :: d in deleted ==> 1 <= d <= n
    ensures lines == Keep(input, deleted)
  {
    lines := input;
    var top := if n > |input| then n else |input|;
    var left := HighToLow(deleted, top);
    ghost var h: nat := top;
    while left != []
      invariant left == HighToLow(deleted, h)
      invariant lines == DeletedAbove(input, h, deleted)
      decreases |left|
    {
      var d := left[0];
      HighestFirst(deleted, h);
      left := left[1..];
      RemoveLine(input, h, d, deleted);
      if d >= 1 && d <= |lines| {
        lines := lines[..d - 1] + lines[d..];
      }
      h := d - 1;
    }
    NoneLeft(deleted, h);
    AllDone(input, h, deleted);
  }

  lemma AllDone(input: Lines, h: nat, deleted: set<int>)
    requires forall x :: 1 <= x <= h ==> x !in deleted
    ensures DeletedAbove(input, h, deleted) == Keep(input, deleted)
  {
    var top := if h < |input| then h else |input|;
    SkipUndeleted(input, 0, top, deleted);
    assert input[0..top] == input[..top];
    if h >= |input| {
      assert KeepFrom(input, |input|, deleted) == [];
    }
  }

  lemma RemoveLine(input: Lines, h: nat, d: nat, deleted: set<int>)
    requires 1 <= d <= h && d in deleted && forall x :: d < x <= h ==> x !in deleted
    ensures
      var lines := DeletedAbove(input, h, deleted);
      DeletedAbove(input, d - 1, deleted) == if d <= |lines| then lines[..d - 1] + lines[d..] else lines
  {
    if d <= |input| {
      var lines := DeletedAbove(input, h, deleted);
      var top := if h < |input| then h else |input|;
      SkipUndeleted(input, d, top, deleted);
      assert top == |input| ==> KeepFrom(input, top, deleted) == [];
      assert lines[d..] == input[d..top] + KeepFrom(input, top, deleted);
      assert lines[..d - 1] == input[..d - 1];
      assert KeepFrom(input, d - 1, deleted) == KeepFrom(input, d, deleted);
    }
  }

  // ------------------------------------------------------------ the whole pass

  datatype EditError = DeleteOutOfRange | EditOutOfRange

  /** How many edits the code counts as applied when it succeeds. */
  function AppliedCount(edits: seq<LineEdit>): nat {
    if edits == [] then 0
    else
      var e := Last(edits);
      AppliedCount(Front(edits)) + (if e.delete != [] then 1 else 0) + (if Active(e) then 1 else 0)
  }

  function DeleteCount(edits: seq<LineEdit>): nat {
    if edits == [] then 0 else DeleteCount(Front(edits)) + if Last(edits).delete != [] then 1 else 0
  }

  lemma {:induction false} CountsAdd(edits: seq<LineEdit>)
    ensures AppliedCount(edits) == DeleteCount(edits) + |ActiveEdits(edits)|
    decreases |edits|
  {
    if edits != [] {
      CountsAdd(Front(edits));
    }
  }

  /** The outcome for one order the sort may produce. */
  function Outcome(content: string, edits: seq<LineEdit>, order: seq<LineEdit>): Result<(string, nat), EditError> {
    var lines := Split(content);
    if !DeletesInRange(edits, |lines|) then Err(DeleteOutOfRange)
    else
      var edited := ApplyAll(lines, order);
      if edited.None? then Err(EditOutOfRange)
      else Ok((JoinLines(Keep(edited.value, DeleteSet(edits))), AppliedCount(edits)))
  }

  method CollectDeletes(edits: seq<LineEdit>, n: nat) returns (deleted: set<int>, valid: bool, count: nat)
    ensures valid <==> DeletesInRange(edits, n)
    ensures valid ==> deleted == DeleteSet(edits) && count == DeleteCount(edits)
    ensures valid ==> forall d :: d in deleted ==> 1 <= d <= n
  {
    deleted, valid, count := {}, true, 0;
    for i := 0 to |edits|
      invariant DeletesInRange(edits[..i], n)
      invariant deleted == DeleteSet(edits[..i]) && count == DeleteCount(edits[..i])
      invariant forall d :: d in deleted ==> 1 <= d <= n
    {
      assert Front(edits[..i + 1]) == edits[..i];
      var ds := edits[i].delete;
      ghost var before := deleted;
      for k := 0 to |ds|
        invariant forall j :: 0 <= j < k ==> 1 <= ds[j] <= n
        invariant deleted == before + set d | d in ds[..k]
        invariant forall d :: d in deleted ==> 1 <= d <= n
      {
        if ds[k] < 1 || ds[k] > n {
          assert edits[i].delete[k] == ds[k];
          return {}, false, 0;
        }
        assert ds[..k + 1] == ds[..k] + [ds[k]];
        deleted := deleted + {ds[k]};
      }
      assert ds[..|ds|] == ds;
      if |ds| > 0 {
        count := count + 1;
      }
    }
    assert edits[..|edits|] == edits;
  }

  /** `order` is what the library sort makes of the active edits. */
  method ApplyLineEdits(content: string, edits: seq<LineEdit>, order: seq<LineEdit>)
    returns (r: Result<(string, nat), EditError>)
    requires IsSorted(order, edits)
    ensures r == Outcome(content, edits, order)
  {
    var lines := Split(content);
    ghost var original := lines;
    var deleteSet, valid, applied := CollectDeletes(edits, |lines|);
    if !valid {
      return Err(DeleteOutOfRange);
    }
    var n := |lines|;
    for k := 0 to |order|
      invariant ApplyAll(original, order[..k]) == Some(lines)
      invariant applied == DeleteCount(edits) + k
    {
      var e := order[k];
      assert Front(order[..k + 1]) == order[..k];
      OrderIsActive(order, edits, k);
      var edited := ApplyEdit(lines, e);
      if edited.None? {
        FailureStays(original, order, k + 1);
        return Err(EditOutOfRange);
      }
      lines := edited.value;
      applied := applied + 1;
    }
    assert order[..|order|] == order;
    if deleteSet != {} {
      lines := DeleteLines(lines, deleteSet, n);
    } else {
      KeepAll(lines, 0);
    }
    CountsAdd(edits);
    assert |multiset(order)| == |multiset(ActiveEdits(edits))|;
    return Ok((JoinLines(lines), applied));
  }

  method ApplyEdit(lines: Lines, e: LineEdit) returns (r: Option<Lines>)
    requires Active(e)
    ensures r == ApplyOne(lines, e)
  {
    if e.line > 0 {
      if e.line < 1 || e.line > |lines| {
        return None;
      }
      r := Some(lines[e.line - 1 := e.content]);
      assert lines[e.line - 1 := e.content] == lines[..e.line - 1] + [e.content] + lines[e.line..];
    } else if e.from > 0 {
      var to := e.to;
      if to == 0 {
        to := e.from;
      }
      if e.from < 1 || to > |lines| || e.from > to {
        return None;
      }
      r := Some(lines[..e.from - 1] + Split(e.content) + lines[to..]);
    } else {
      if e.after < 0 || e.after > |lines| {
        return None;
      }
      r := Some(lines[..e.after] + Split(e.content) + lines[e.after..]);
    }
  }

  lemma {:induction false} ActiveAreActive(edits: seq<LineEdit>)
    ensures forall k :: 0 <= k < |ActiveEdits(edits)| ==> Active(ActiveEdits(edits)[k])
    decreases |edits|
  {
    if edits != [] {
      ActiveAreActive(Front(edits));
    }
  }

  lemma OrderIsActive(order: seq<LineEdit>, edits: seq<LineEdit>, k: nat)
    requires IsSorted(order, edits) && k < |order|
    ensures Active(order[k])
  {
    ActiveAreActive(edits);
    assert order[k] in multiset(order);
    assert order[k] in multiset(ActiveEdits(edits));
  }

  lemma {:induction false} FailureStays(lines: Lines, order: seq<LineEdit>, k: nat)
    requires k <= |order| && ApplyAll(lines, order[..k]) == None
    ensures ApplyAll(lines, order) == None
    decreases |order| - k
  {
    if k == |order| {
      assert order[..k] == order;
    } else {
      assert Front(order[..k + 1]) == order[..k];
      FailureStays(lines, order, k + 1);
    }
  }

  lemma {:induction false} KeepAll(lines: Lines, h: nat)
    requires h <= |lines|
    ensures KeepFrom(lines, h, {}) == lines[h..]
    decreases |lines| - h
  {
    if h < |lines| {
      KeepAll(lines, h + 1);
    }
  }
}
