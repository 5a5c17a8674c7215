/** tools/editing.go: what a whole call of the line editor returns, said in terms of the
    fields of its edits. */
module LineEditCalls {
  import opened Wrappers
  import opened Text
  import opened LineEdits
  import opened SimultaneousEdits

  // ------------------------------------------------------- calls with one edit

  lemma OrderOfOne(e: LineEdit, order: seq<LineEdit>)
    requires IsSorted(order, [e]) && (e.line > 0 || e.from > 0 || e.after > 0)
    ensures order == [e] && Front([e]) == []
    ensures ActiveEdits([e]) == [e]
  {
    assert Front([e]) == [];
    assert ActiveEdits([e]) == [e];
    assert |multiset(order)| == |multiset([e])|;
    assert order[0] in multiset(order);
  }

  lemma NoDeletes(content: string, e: LineEdit)
    requires e.delete == []
    ensures DeletesInRange([e], |Split(content)|) && DeleteSet([e]) == {}
    ensures forall lines :: Keep(lines, {}) == lines
  {
    assert Front([e]) == [];
    assert DeleteSet([e]) == set d | d in e.delete;
    forall lines ensures Keep(lines, {}) == lines {
      KeepAll(lines, 0);
    }
  }

  lemma OutcomeOfOne(content: string, e: LineEdit, order: seq<LineEdit>)
    requires IsSorted(order, [e]) && (e.line > 0 || e.from > 0 || e.after > 0) && e.delete == []
    ensures
      var r := ApplyOne(Split(content), e);
      Outcome(content, [e], order) == if r.None? then Err(EditOutOfRange) else Ok((JoinLines(r.value), 1))
  {
    OrderOfOne(e, order);
    NoDeletes(content, e);
    assert ApplyAll(Split(content), Front([e])) == Some(Split(content));
    assert AppliedCount(Front([e])) == 0;
  }

  /** A single line gets the content as it is. */
  lemma LineAlone(content: string, e: LineEdit, order: seq<LineEdit>)
    requires IsSorted(order, [e]) && e.delete == [] && e.line > 0
    ensures
      var lines := Split(content);
      Outcome(content, [e], order) ==
      if e.line <= |lines| then Ok((JoinLines(lines[e.line - 1 := e.content]), 1)) else Err(EditOutOfRange)
  {
    OutcomeOfOne(content, e, order);
    var lines := Split(content);
    if e.line <= |lines| {
      assert lines[e.line - 1 := e.content] == lines[..e.line - 1] + [e.content] + lines[e.line..];
    }
  }

  /** A range from `from` to `to`, or of one line without a `to`, gets the lines of the content. */
  lemma RangeAlone(content: string, e: LineEdit, order: seq<LineEdit>)
    requires IsSorted(order, [e]) && e.delete == [] && e.line <= 0 && e.from > 0
    ensures
      var lines, to := Split(content), if e.to == 0 then e.from else e.to;
      Outcome(content, [e], order) ==
      if e.from <= to <= |lines| then Ok((JoinLines(lines[..e.from - 1] + Split(e.content) + lines[to..]), 1))
      else Err(EditOutOfRange)
  {
    OutcomeOfOne(content, e, order);
  }

  /** The lines of the content are put behind line `after`. */
  lemma InsertionAlone(content: string, e: LineEdit, order: seq<LineEdit>)
    requires IsSorted(order, [e]) && e.delete == [] && e.line <= 0 && e.from <= 0 && e.after > 0
    ensures
      var lines := Split(content);
      Outcome(content, [e], order) ==
      if e.after <= |lines| then Ok((JoinLines(lines[..e.after] + Split(e.content) + lines[e.after..]), 1))
      else Err(EditOutOfRange)
  {
    OutcomeOfOne(content, e, order);
  }

  // ---------------------------------------------------------------- the count

  predicate Deletes(edits: seq<LineEdit>, i: nat)
    requires i < |edits|
  {
    edits[i].delete != []
  }

  /** The positions of the edits that delete something. */
  function Deleting(edits: seq<LineEdit>): set<nat> { set i: nat | i < |edits| && Deletes(edits, i) }

  /** An edit counts once for what it replaces or inserts, and once for what it deletes. */
  lemma {:induction false} CountIs(edits: seq<LineEdit>)
    ensures AppliedCount(edits) == |Asked(edits)| + |Deleting(edits)|
    decreases |edits|
  {
    if edits == [] {
      assert Deleting(edits) == {};
    } else {
      CountIs(Front(edits));
      var n := |edits| - 1;
      forall i: nat | i < n ensures Deletes(Front(edits), i) <==> Deletes(edits, i) {}
      assert Deleting(edits) == Deleting(Front(edits)) + if Last(edits).delete != [] then {n} else {};
    }
  }

  /** The lines deleted are those some edit lists. */
  lemma {:induction false} DeleteSetIs(edits: seq<LineEdit>, d: int)
    ensures d in DeleteSet(edits) <==> exists i :: 0 <= i < |edits| && d in edits[i].delete
    decreases |edits|
  {
    if edits != [] {
      DeleteSetIs(Front(edits), d);
      forall i | 0 <= i < |edits| - 1 ensures d in edits[i].delete <==> d in Front(edits)[i].delete {}
      if d in DeleteSet(Front(edits)) {
        var i :| 0 <= i < |Front(edits)| && d in Front(edits)[i].delete;
        assert d in edits[i].delete;
      }
      assert edits[|edits| - 1] == Last(edits);
    }
  }

  // ----------------------------------------------------------- the whole call

  /** For every call whose edits do not interfere, and every order the sort may leave: it fails
      first for a delete out of range, then for an edit out of range; without deletes it
      returns the text with everything asked for done at once. */
  lemma CallIsSimultaneous(content: string, edits: seq<LineEdit>, order: seq<LineEdit>)
    requires IsSorted(order, edits) && Independent(edits)
    ensures
      var lines, r := Split(content), Outcome(content, edits, order);
      var inRange := forall i, d :: 0 <= i < |edits| && d in edits[i].delete ==> 1 <= d <= |lines|;
      && (r == Err(DeleteOutOfRange) <==> !inRange)
      && (r == Err(EditOutOfRange) <==> inRange && !AllFit(Asked(edits), |lines|))
      && (r.Ok? && Deleting(edits) == {} ==> r.value == (JoinLines(OneShot(lines, Asked(edits))), |Asked(edits)|))
      && (r.Ok? ==> r.value.1 == |Asked(edits)| + |Deleting(edits)|)
  {
    var lines := Split(content);
    AskedAreActive(edits);
    LineEditsAreSimultaneous(content, edits, order);
    CountIs(edits);
    RangesMean(edits, |lines|);
    if Deleting(edits) == {} {
      NothingDeleted(edits);
      forall now ensures Keep(now, {}) == now {
        KeepAll(now, 0);
      }
    }
  }

  lemma RangesMean(edits: seq<LineEdit>, n: nat)
    ensures DeletesInRange(edits, n) <==> forall i, d :: 0 <= i < |edits| && d in edits[i].delete ==> 1 <= d <= n
  {
    if forall i, d :: 0 <= i < |edits| && d in edits[i].delete ==> 1 <= d <= n {
      forall i, k | 0 <= i < |edits| && 0 <= k < |edits[i].delete| ensures 1 <= edits[i].delete[k] <= n {
        assert edits[i].delete[k] in edits[i].delete;
      }
    }
  }

  lemma NothingDeleted(edits: seq<LineEdit>)
    requires Deleting(edits) == {}
    ensures DeleteSet(edits) == {}
  {
    forall d ensures d !in DeleteSet(edits) {
      DeleteSetIs(edits, d);
      forall i: nat | i < |edits| ensures edits[i].delete == [] {
        assert i in Deleting(edits) <==> Deletes(edits, i);
      }
    }
  }
}
