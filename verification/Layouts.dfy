/** tools/layout.go: layouts that are saved, patched and reverted, and the history of versions
    each of these adds to. */
module Layouts {
  import opened Wrappers
  import opened Text
  import ReplaceNear

  /** The two columns of content; None is SQL's NULL. */
  datatype Content = Content(head: Option<string>, template: Option<string>)

  datatype Layout = Layout(id: nat, content: Content)

  datatype By = Brain | Reverting

  datatype Version = Version(layout: nat, name: string, content: Content, number: nat, changedBy: By)

  /** ho_layouts by name, ho_layout_versions in the order of insertion, and the next id. */
  datatype Store = Store(layouts: map<string, Layout>, versions: seq<Version>, nextId: nat)

  // ---------------------------------------------------------------- versions

  function VersionsOf(versions: seq<Version>, id: nat): seq<Version> {
    if versions == [] then []
    else VersionsOf(Front(versions), id) + if Last(versions).layout == id then [Last(versions)] else []
  }

  /** COALESCE(MAX(version_number), 0). */
  function MaxNumber(versions: seq<Version>, id: nat): nat {
    if versions == [] then 0
    else
      var before := MaxNumber(Front(versions), id);
      if Last(versions).layout == id && Last(versions).number > before then Last(versions).number else before
  }

  function FindVersion(versions: seq<Version>, id: nat, number: int): Option<Content> {
    if versions == [] then None
    else
      var before := FindVersion(Front(versions), id, number);
      if before.Some? then before
      else if Last(versions).layout == id && Last(versions).number == number then Some(Last(versions).content)
      else None
  }

  /** Each row carries the next number of its layout. */
  ghost predicate Numbered(versions: seq<Version>) {
    forall k {:trigger versions[k]} :: 0 <= k < |versions| ==>
      versions[k].number == 1 + |VersionsOf(versions[..k], versions[k].layout)|
  }

  lemma NumberedFront(versions: seq<Version>)
    requires Numbered(versions) && versions != []
    ensures Numbered(Front(versions))
    ensures Last(versions).number == 1 + |VersionsOf(Front(versions), Last(versions).layout)|
  {
    forall k {:trigger Front(versions)[k]} | 0 <= k < |versions| - 1
      ensures Front(versions)[k].number == 1 + |VersionsOf(Front(versions)[..k], Front(versions)[k].layout)|
    {
      assert Front(versions)[..k] == versions[..k] && Front(versions)[k] == versions[k];
    }
    assert versions[|versions| - 1] == Last(versions);
  }

  lemma NumberedSnoc(versions: seq<Version>, v: Version)
    requires Numbered(versions) && v.number == 1 + |VersionsOf(versions, v.layout)|
    ensures Numbered(versions + [v])
  {
    var all := versions + [v];
    forall k {:trigger all[k]} | 0 <= k < |all| ensures all[k].number == 1 + |VersionsOf(all[..k], all[k].layout)| {
      assert all[..k] == versions[..k];
      assert versions[..|versions|] == versions;
    }
  }

  lemma {:induction false} MaxIsCount(versions: seq<Version>, id: nat)
    requires Numbered(versions)
    ensures MaxNumber(versions, id) == |VersionsOf(versions, id)|
    decreases |versions|
  {
    if versions != [] {
      NumberedFront(versions);
      MaxIsCount(Front(versions), id);
    }
  }

  /** The versions of a layout are 1 to n, each of them found by its number, and no others are. */
  lemma {:induction false} NumbersAreOneToN(versions: seq<Version>, id: nat, number: int)
    requires Numbered(versions)
    ensures
      var own := VersionsOf(versions, id);
      FindVersion(versions, id, number) == if 1 <= number <= |own| then Some(own[number - 1].content) else None
    ensures 1 <= number <= |VersionsOf(versions, id)| ==> VersionsOf(versions, id)[number - 1].number == number
    decreases |versions|
  {
    if versions != [] {
      NumberedFront(versions);
      NumbersAreOneToN(Front(versions), id, number);
    }
  }

  // -------------------------------------------------------------- operations

  /** Which accesses to the database succeed. */
  datatype Access = Access(read: bool, capture: bool, write: bool)

  datatype Outcome =
    Done | NameRequired | NoPatches | NotFound | InvalidField | NoMatch | VersionRequired | VersionNotFound
    | WriteFailed

  function Captured(s: Store, name: string, changedBy: By, ok: bool): Store
    requires name in s.layouts
  {
    var l := s.layouts[name];
    var v := Version(l.id, name, l.content, MaxNumber(s.versions, l.id) + 1, changedBy);
    if ok then s.(versions := s.versions + [v]) else s
  }

  /** INSERT … ON CONFLICT(name) DO UPDATE. */
  function Put(s: Store, name: string, content: Content): Store {
    if name in s.layouts then s.(layouts := s.layouts[name := s.layouts[name].(content := content)])
    else s.(layouts := s.layouts[name := Layout(s.nextId, content)], nextId := s.nextId + 1)
  }

  /** NULL reads as the empty string. */
  function TextOf(t: Option<string>): string { if t.Some? then t.value else "" }

  function Named(name: string): string { if name == "" then "default" else name }

  function Merged(s: Store, name: string, found: bool, head: Option<string>, template: Option<string>): Content
    requires found ==> name in s.layouts
  {
    Content(Some(if head.Some? || !found then TextOf(head) else TextOf(s.layouts[name].content.head)),
            Some(if template.Some? || !found then TextOf(template) else TextOf(s.layouts[name].content.template)))
  }

  function Saved(s: Store, name: string, head: Option<string>, template: Option<string>, io: Access): (Store, Outcome) {
    if name == "" then (s, NameRequired)
    else
      var found := io.read && name in s.layouts;
      var s1 := if found then Captured(s, name, Brain, io.capture) else s;
      if io.write then (Put(s1, name, Merged(s, name, found, head, template)), Done) else (s1, WriteFailed)
  }

  function Patched(s: Store, name: string, patches: Option<seq<ReplaceNear.Patch>>, field: string, io: Access)
    : (Store, Outcome)
  {
    var n := Named(name);
    if patches.None? || patches.value == [] then (s, NoPatches)
    else if !io.read || n !in s.layouts then (s, NotFound)
    else
      var s1 := Captured(s, n, Brain, io.capture);
      if field != "" && field != "template" && field != "head_content" then (s1, InvalidField)
      else
        var was := s.layouts[n].content;
        var target := TextOf(if field == "head_content" then was.head else was.template);
        var report := ReplaceNear.Reported(target, patches.value);
        if report.applied == [] && report.notFound != [] then (s1, NoMatch)
        else if !io.write then (s1, WriteFailed)
        else
          var text := Some(ReplaceNear.AfterAll(target, patches.value));
          (Put(s1, n, if field == "head_content" then was.(head := text) else was.(template := text)), Done)
  }

  function Reverted(s: Store, name: string, version: Option<real>, io: Access): (Store, Outcome) {
    var n := Named(name);
    if version.None? || version.value < 1.0 then (s, VersionRequired)
    else if !io.read || n !in s.layouts then (s, NotFound)
    else
      var found := FindVersion(s.versions, s.layouts[n].id, version.value.Floor);
      if found.None? then (s, VersionNotFound)
      else
        var s1 := Captured(s, n, Reverting, io.capture);
        if io.write then (Put(s1, n, found.value), Done) else (s1, WriteFailed)
  }

  class LayoutTool {
    var layouts: map<string, Layout>
    var versions: seq<Version>
    var nextId: nat

    constructor ()
      ensures State() == Store(map[], [], 0)
    {
      layouts, versions, nextId := map[], [], 0;
    }

    function State(): Store
      reads this
    {
      Store(layouts, versions, nextId)
    }

    method CaptureLayoutVersion(name: string, changedBy: By, ok: bool)
      requires name in layouts
      modifies this`versions
      ensures State() == Captured(old(State()), name, changedBy, ok)
    {
      if !ok {
        return;
      }
      var maxVer := MaxNumber(versions, layouts[name].id);
      versions := versions + [Version(layouts[name].id, name, layouts[name].content, maxVer + 1, changedBy)];
    }

    method Save(name: string, head: Option<string>, template: Option<string>, io: Access) returns (r: Outcome)
      modifies this
      ensures (State(), r) == Saved(old(State()), name, head, template, io)
    {
      if name == "" {
        return NameRequired;
      }
      var headContent, newTemplate := TextOf(head), TextOf(template);
      if io.read && name in layouts {
        CaptureLayoutVersion(name, Brain, io.capture);
        if head.None? {
          headContent := TextOf(layouts[name].content.head);
        }
        if template.None? {
          newTemplate := TextOf(layouts[name].content.template);
        }
      }
      if !io.write {
        return WriteFailed;
      }
      var content := Content(Some(headContent), Some(newTemplate));
      if name in layouts {
        layouts := layouts[name := layouts[name].(content := content)];
      } else {
        layouts := layouts[name := Layout(nextId, content)];
        nextId := nextId + 1;
      }
      return Done;
    }

    method Patch(name: string, patches: Option<seq<ReplaceNear.Patch>>, field: string, io: Access) returns (r: Outcome)
      modifies this
      ensures (State(), r) == Patched(old(State()), name, patches, field, io)
    {
      var n := Named(name);
      if patches.None? || |patches.value| == 0 {
        return NoPatches;
      }
      if !io.read || n !in layouts {
        return NotFound;
      }
      var current := layouts[n];
      CaptureLayoutVersion(n, Brain, io.capture);
      var target: string;
      if field == "" || field == "template" {
        target := TextOf(current.content.template);
      } else if field == "head_content" {
        target := TextOf(current.content.head);
      } else {
        return InvalidField;
      }
      var modified, report := ReplaceNear.ApplyPatches(target, patches.value);
      if |report.applied| == 0 && |report.notFound| > 0 {
        return NoMatch;
      }
      if !io.write {
        return WriteFailed;
      }
      if field == "head_content" {
        layouts := layouts[n := current.(content := current.content.(head := Some(modified)))];
      } else {
        layouts := layouts[n := current.(content := current.content.(template := Some(modified)))];
      }
      return Done;
    }

    method Revert(name: string, version: Option<real>, io: Access) returns (r: Outcome)
      modifies this
      ensures (State(), r) == Reverted(old(State()), name, version, io)
    {
      var n := Named(name);
      if version.None? || version.value < 1.0 {
        return VersionRequired;
      }
      if !io.read || n !in layouts {
        return NotFound;
      }
      var found := FindVersion(versions, layouts[n].id, version.value.Floor);
      if found.None? {
        return VersionNotFound;
      }
      CaptureLayoutVersion(n, Reverting, io.capture);
      if !io.write {
        return WriteFailed;
      }
      layouts := layouts[n := layouts[n].(content := found.value)];
      return Done;
    }
  }

  // ---------------------------------------------------------------- histories

  datatype Op =
    | Save(name: string, head: Option<string>, template: Option<string>, io: Access)
    | Patch(name: string, patches: Option<seq<ReplaceNear.Patch>>, field: string, io: Access)
    | Revert(name: string, version: Option<real>, io: Access)

  function Apply(s: Store, op: Op): (Store, Outcome) {
    match op
    case Save(name, head, template, io) => Saved(s, name, head, template, io)
    case Patch(name, patches, field, io) => Patched(s, name, patches, field, io)
    case Revert(name, version, io) => Reverted(s, name, version, io)
  }

  ghost predicate Valid(s: Store) {
    && Numbered(s.versions)
    && (forall n :: n in s.layouts ==> s.layouts[n].id < s.nextId)
    && (forall m, n :: m in s.layouts && n in s.layouts && m != n ==> s.layouts[m].id != s.layouts[n].id)
    && (forall k :: 0 <= k < |s.versions| ==> s.versions[k].layout < s.nextId)
  }

  /** The operation read and captured what it was about to change. */
  predicate Careful(op: Op) { op.io.read && op.io.capture }

  /** What every operation is made of: perhaps a capture, perhaps a write. */
  ghost predicate OneChange(s: Store, t: Store, n: string, changedBy: By, captured: bool, content: Option<Content>) {
    && (captured ==> n in s.layouts)
    && var s1 := if captured then Captured(s, n, changedBy, true) else s;
       t == if content.Some? then Put(s1, n, content.value) else s1
  }

  function Target(op: Op): string { if op.Save? then op.name else Named(op.name) }

  lemma ApplyIsOneChange(s: Store, op: Op) returns (changedBy: By, captured: bool, content: Option<Content>)
    ensures OneChange(s, Apply(s, op).0, Target(op), changedBy, captured, content)
    ensures Careful(op) && Target(op) in s.layouts && content.Some? ==> captured
  {
    var t, n := Apply(s, op).0, Target(op);
    changedBy := if op.Revert? then Reverting else Brain;
    captured := t.versions != s.versions;
    content := if Apply(s, op).1 == Done && n in t.layouts then Some(t.layouts[n].content) else None;
  }

  lemma CaptureKeepsValid(s: Store, n: string, changedBy: By)
    requires Valid(s) && n in s.layouts
    ensures Valid(Captured(s, n, changedBy, true))
  {
    var l := s.layouts[n];
    MaxIsCount(s.versions, l.id);
    NumberedSnoc(s.versions, Version(l.id, n, l.content, MaxNumber(s.versions, l.id) + 1, changedBy));
  }

  lemma PutKeepsValid(s: Store, n: string, content: Content)
    requires Valid(s)
    ensures Valid(Put(s, n, content))
  {}

  /** Every operation, whatever fails in it: numbers stay 1 to n for each layout, what is in
      the history stays as it is, and every layout keeps its name and id. */
  lemma ApplyKeepsValid(s: Store, op: Op)
    requires Valid(s)
    ensures var t := Apply(s, op).0;
      && Valid(t) && s.versions <= t.versions
      && forall n :: n in s.layouts ==> n in t.layouts && t.layouts[n].id == s.layouts[n].id
  {
    var changedBy, captured, content := ApplyIsOneChange(s, op);
    var n := Target(op);
    var s1 := if captured then Captured(s, n, changedBy, true) else s;
    if captured {
      CaptureKeepsValid(s, n, changedBy);
    }
    if content.Some? {
      PutKeepsValid(s1, n, content.value);
    }
  }

  predicate Stored(versions: seq<Version>, id: nat, content: Content) {
    exists k :: 0 <= k < |versions| && versions[k].layout == id && versions[k].content == content
  }

  /** The content is what the layout has now, or a version of it. */
  predicate Kept(s: Store, name: string, content: Content) {
    name in s.layouts && (s.layouts[name].content == content || Stored(s.versions, s.layouts[name].id, content))
  }

  lemma ApplyKeepsContent(s: Store, op: Op, name: string, content: Content)
    requires Valid(s) && Careful(op) && Kept(s, name, content)
    ensures Kept(Apply(s, op).0, name, content)
  {
    var changedBy, captured, put := ApplyIsOneChange(s, op);
    var t, n, id := Apply(s, op).0, Target(op), s.layouts[name].id;
    ApplyKeepsValid(s, op);
    if Stored(s.versions, id, content) {
      var k :| 0 <= k < |s.versions| && s.versions[k].layout == id && s.versions[k].content == content;
      assert t.versions[k] == s.versions[k];
    } else if captured && n == name {
      assert t.versions[|s.versions|].layout == id && t.versions[|s.versions|].content == content;
    }
  }

  ghost predicate IsHistory(stores: seq<Store>, ops: seq<Op>) {
    && |stores| == |ops| + 1 && Valid(stores[0])
    && forall i :: 0 <= i < |ops| ==> stores[i + 1] == Apply(stores[i], ops[i]).0
  }

  /** Versions are never altered nor removed, whatever fails. */
  lemma {:induction false} HistoryOnlyGrows(stores: seq<Store>, ops: seq<Op>, i: nat, j: nat)
    requires IsHistory(stores, ops) && i <= j < |stores|
    ensures Valid(stores[i]) && Valid(stores[j])
    ensures stores[i].versions <= stores[j].versions
    ensures forall n :: n in stores[i].layouts ==>
              n in stores[j].layouts && stores[j].layouts[n].id == stores[i].layouts[n].id
    decreases j
  {
    if i < j {
      HistoryOnlyGrows(stores, ops, i, j - 1);
      ApplyKeepsValid(stores[j - 1], ops[j - 1]);
    } else if j > 0 {
      HistoryOnlyGrows(stores, ops, j - 1, j - 1);
      ApplyKeepsValid(stores[j - 1], ops[j - 1]);
    }
  }

  /** Nothing a layout ever was is lost. */
  lemma {:induction false} NothingIsLost(stores: seq<Store>, ops: seq<Op>, i: nat, j: nat, name: string)
    requires IsHistory(stores, ops) && i <= j < |stores| && name in stores[i].layouts
    requires forall k :: i <= k < j ==> Careful(ops[k])
    ensures Kept(stores[j], name, stores[i].layouts[name].content)
    decreases j
  {
    if i < j {
      NothingIsLost(stores, ops, i, j - 1, name);
      HistoryOnlyGrows(stores, ops, i, j - 1);
      assert Careful(ops[j - 1]);
      ApplyKeepsContent(stores[j - 1], ops[j - 1], name, stores[i].layouts[name].content);
    }
  }

  /** A row of the history is one of the numbered versions of its layout. */
  lemma {:induction false} StoredHasNumber(versions: seq<Version>, id: nat, content: Content) returns (number: nat)
    requires Numbered(versions) && Stored(versions, id, content)
    ensures number >= 1 && FindVersion(versions, id, number) == Some(content)
    decreases |versions|
  {
    NumberedFront(versions);
    if Stored(Front(versions), id, content) {
      number := StoredHasNumber(Front(versions), id, content);
    } else {
      var k :| 0 <= k < |versions| && versions[k].layout == id && versions[k].content == content;
      assert k < |Front(versions)| ==> Front(versions)[k] == versions[k];
      number := Last(versions).number;
      NumbersAreOneToN(Front(versions), id, number);
    }
  }

  const FINE := Access(true, true, true)

  function RevertTo(name: string, number: nat): Op { Revert(name, Some(number as real), FINE) }

  lemma RevertToNumber(s: Store, name: string, number: nat, content: Content)
    requires name in s.layouts && name != "" && number >= 1
    requires FindVersion(s.versions, s.layouts[name].id, number) == Some(content)
    ensures Apply(s, RevertTo(name, number)) == (Put(Captured(s, name, Reverting, true), name, content), Done)
  {
    assert (number as real).Floor == number;
  }

  /** Whatever a layout was at some time, one revert at most makes it that again. */
  lemma RevertBringsBack(stores: seq<Store>, ops: seq<Op>, i: nat, j: nat, name: string) returns (number: nat)
    requires IsHistory(stores, ops) && i <= j < |stores| && name in stores[i].layouts && name != ""
    requires forall k :: i <= k < j ==> Careful(ops[k])
    ensures var content := stores[i].layouts[name].content;
      && name in stores[j].layouts
      && (stores[j].layouts[name].content == content
          || (var (t, r) := Apply(stores[j], RevertTo(name, number));
              r == Done && name in t.layouts && t.layouts[name].content == content))
  {
    NothingIsLost(stores, ops, i, j, name);
    HistoryOnlyGrows(stores, ops, i, j);
    var content := stores[i].layouts[name].content;
    number := 1;
    if stores[j].layouts[name].content != content {
      number := StoredHasNumber(stores[j].versions, stores[j].layouts[name].id, content);
      RevertToNumber(stores[j], name, number, content);
    }
  }

  /** What a capture stores is found under the next number. */
  lemma CapturedIsFound(s: Store, name: string, changedBy: By)
    requires Valid(s) && name in s.layouts
    ensures
      var l, t := s.layouts[name], Captured(s, name, changedBy, true);
      var created := |VersionsOf(s.versions, l.id)| + 1;
      FindVersion(t.versions, l.id, created) == Some(l.content) && |t.versions| == |s.versions| + 1
  {
    var l := s.layouts[name];
    MaxIsCount(s.versions, l.id);
    NumbersAreOneToN(s.versions, l.id, |VersionsOf(s.versions, l.id)| + 1);
    assert Front(Captured(s, name, changedBy, true).versions) == s.versions;
  }

  /** A revert is undone by the revert to the version it created: every layout is as before,
      to the NULL. */
  lemma RevertIsReversible(s: Store, name: string, number: nat)
    requires Valid(s) && name in s.layouts && name != "" && number >= 1
    requires FindVersion(s.versions, s.layouts[name].id, number).Some?
    ensures
      var id := s.layouts[name].id;
      var (t, r) := Apply(s, RevertTo(name, number));
      var created := |VersionsOf(s.versions, id)| + 1;
      var (u, q) := Apply(t, RevertTo(name, created));
      && r == Done && name in t.layouts && t.layouts[name].content == FindVersion(s.versions, id, number).value
      && q == Done && u.layouts == s.layouts && u.nextId == s.nextId
      && |u.versions| == |s.versions| + 2
  {
    var l := s.layouts[name];
    var content := FindVersion(s.versions, l.id, number).value;
    RevertToNumber(s, name, number, content);
    var t := Put(Captured(s, name, Reverting, true), name, content);
    var created := |VersionsOf(s.versions, l.id)| + 1;
    CapturedIsFound(s, name, Reverting);
    RevertToNumber(t, name, created, l.content);
    var u := Put(Captured(t, name, Reverting, true), name, l.content);
    assert u.layouts[name] == l;
  }

  predicate ValidField(field: string) { field == "" || field == "template" || field == "head_content" }

  /** The field that is patched; the template when none is named. */
  function FieldOf(c: Content, field: string): Option<string> { if field == "head_content" then c.head else c.template }

  /** No layout is changed for a field there is not, nor when no patch matches the text. */
  predicate Rejected(c: Content, patches: seq<ReplaceNear.Patch>, field: string) {
    !ValidField(field) || ReplaceNear.NothingFound(TextOf(FieldOf(c, field)), patches)
  }

  /** A patch fails after the layout was found exactly when it is rejected; it then changes no
      layout, and still adds a version. */
  lemma FailedPatchIsRecorded(s: Store, name: string, patches: seq<ReplaceNear.Patch>, field: string)
    requires patches != [] && Named(name) in s.layouts
    ensures
      var (t, r) := Patched(s, name, Some(patches), field, FINE);
      var rejected := Rejected(s.layouts[Named(name)].content, patches, field);
      && (r != Done <==> rejected)
      && (rejected ==> t == Captured(s, Named(name), Brain, true))
  {
    ReplaceNear.NoMatchIff(TextOf(FieldOf(s.layouts[Named(name)].content, field)), patches);
  }

  /** When a capture fails, the operation goes on, be it a save, a patch or a revert. What the
      layout was before is kept exactly when it is unchanged, or was read and captured, or was
      stored before. */
  lemma ApplyKeepsIff(s: Store, op: Op)
    requires Valid(s) && Target(op) in s.layouts
    ensures
      var l, t := s.layouts[Target(op)], Apply(s, op).0;
      && Target(op) in t.layouts
      && (Kept(t, Target(op), l.content) <==>
           t.layouts[Target(op)].content == l.content || Careful(op) || Stored(s.versions, l.id, l.content))
  {
    var n, t := Target(op), Apply(s, op).0;
    var l := s.layouts[n];
    ApplyKeepsValid(s, op);
    if Careful(op) {
      ApplyKeepsContent(s, op, n, l.content);
    } else {
      assert t.versions == s.versions;
    }
  }

  /** What a save writes: a text that is given, and for one that is omitted the text there was,
      or the empty text when the layout was not found. */
  predicate SavedTexts(was: Option<Content>, head: Option<string>, template: Option<string>, now: Content) {
    && now.head == Some(match head
                        case Some(text) => text
                        case None => if was.Some? then TextOf(was.value.head) else "")
    && now.template == Some(match template
                            case Some(text) => text
                            case None => if was.Some? then TextOf(was.value.template) else "")
  }

  /** A save that goes through: the old content is captured when it was found, the layout keeps
      its id or gets the next one, and no other layout changes. */
  lemma SaveIs(s: Store, name: string, head: Option<string>, template: Option<string>, io: Access)
    requires name != "" && io.write
    ensures
      var (t, r) := Saved(s, name, head, template, io);
      var found := io.read && name in s.layouts;
      && r == Done && name in t.layouts
      && SavedTexts(if found then Some(s.layouts[name].content) else None, head, template, t.layouts[name].content)
      && t.layouts[name].id == (if name in s.layouts then s.layouts[name].id else s.nextId)
      && t.layouts.Keys == s.layouts.Keys + {name}
      && (forall n :: n in s.layouts && n != name ==> t.layouts[n] == s.layouts[n])
      && t.versions == if found then Captured(s, name, Brain, io.capture).versions else s.versions
  {
    var t := Saved(s, name, head, template, io).0;
    var s1 := if io.read && name in s.layouts then Captured(s, name, Brain, io.capture) else s;
    assert t.layouts[name].content == Merged(s, name, io.read && name in s.layouts, head, template);
  }

  /** For a save: it keeps the old content when it fails, when it captured it, when each text
      that is given is the one there was and no NULL becomes the empty text, or when the
      content was stored before. */
  lemma SaveKeepsIff(s: Store, name: string, head: Option<string>, template: Option<string>, io: Access)
    requires Valid(s) && name in s.layouts && name != ""
    ensures
      var l := s.layouts[name];
      Kept(Saved(s, name, head, template, io).0, name, l.content) <==>
        || !io.write || (io.read && io.capture)
        || SavedTexts(if io.read then Some(l.content) else None, head, template, l.content)
        || Stored(s.versions, l.id, l.content)
  {
    ApplyKeepsIff(s, Save(name, head, template, io));
    var was := if io.read then Some(s.layouts[name].content) else None;
    forall now ensures SavedTexts(was, head, template, now) <==> now == Merged(s, name, io.read, head, template) {}
  }

  /** For a patch: it loses the content when it goes through without a capture, changes the
      text of its field, be it only from NULL to the empty text, and that was not stored. */
  lemma PatchKeepsIff(s: Store, name: string, patches: Option<seq<ReplaceNear.Patch>>, field: string, io: Access)
    requires Valid(s) && Named(name) in s.layouts
    ensures
      var l := s.layouts[Named(name)];
      var was := FieldOf(l.content, field);
      Kept(Patched(s, name, patches, field, io).0, Named(name), l.content) <==>
        || !io.read || !io.write || io.capture || patches.None? || patches.value == []
        || Rejected(l.content, patches.value, field)
        || was == Some(ReplaceNear.AfterAll(TextOf(was), patches.value))
        || Stored(s.versions, l.id, l.content)
  {
    ApplyKeepsIff(s, Patch(name, patches, field, io));
    if patches.Some? {
      ReplaceNear.NoMatchIff(TextOf(FieldOf(s.layouts[Named(name)].content, field)), patches.value);
    }
  }

  /** For a revert: when it finds a version that differs and writes it without a capture. */
  lemma RevertKeepsIff(s: Store, name: string, version: Option<real>, io: Access)
    requires Valid(s) && Named(name) in s.layouts
    ensures
      var l := s.layouts[Named(name)];
      Kept(Reverted(s, name, version, io).0, Named(name), l.content) <==>
        || !io.read || !io.write || io.capture || version.None? || version.value < 1.0
        || FindVersion(s.versions, l.id, version.value.Floor) in {None, Some(l.content)}
        || Stored(s.versions, l.id, l.content)
  {
    ApplyKeepsIff(s, Revert(name, version, io));
  }
}
