/** brain/plan.go: applying an incremental patch to the plan in place. */
module PlanPatch {
  import opened Wrappers
  import opened Text
  import opened PlanModel

  datatype Patch = Patch(
    addPages: seq<Page>, modifyPages: seq<Page>, removePages: seq<string>,
    addEndpoints: seq<Endpoint>, modifyEndpoints: seq<Endpoint>,
    addTables: seq<Table>, modifyTables: seq<Table>,
    addWebhooks: seq<string>, addComponents: seq<string>, addTasks: seq<string>,
    updateAuthStrategy: string, updateDesign: Option<Design>, updateLayout: Option<Layout>)

  // --------------------------------------------------------- effect on values

  /** No plan exclusions mentioning auth: keep everything; otherwise drop auth endpoints. */
  predicate ExcludesAuth(exclusions: seq<string>) {
    exclusions != [] && Contains(Join(exclusions, " "), "no auth")
  }

  function Admitted(exclusions: seq<string>, endpoints: seq<Endpoint>): seq<Endpoint> {
    if endpoints == [] then []
    else
      Admitted(exclusions, Front(endpoints)) +
      if Last(endpoints).action == "create_auth" && ExcludesAuth(exclusions) then [] else [Last(endpoints)]
  }

  function RemoveFirst(pages: seq<Page>, path: string): seq<Page> {
    if pages == [] then []
    else if pages[0].path == path then pages[1..]
    else [pages[0]] + RemoveFirst(pages[1..], path)
  }

  function Removed(pages: seq<Page>, paths: seq<string>): seq<Page> {
    if paths == [] then pages else RemoveFirst(Removed(pages, Front(paths)), Last(paths))
  }

  function ReplaceFirst(pages: seq<Page>, mod: Page): seq<Page> {
    if pages == [] then []
    else if pages[0].path == mod.path then [mod] + pages[1..]
    else [pages[0]] + ReplaceFirst(pages[1..], mod)
  }

  function Modified(pages: seq<Page>, mods: seq<Page>): seq<Page> {
    if mods == [] then pages else ReplaceFirst(Modified(pages, Front(mods)), Last(mods))
  }

  /** The first endpoint of mod's path and action is replaced; without one, mod is appended. */
  function PutEndpoint(endpoints: seq<Endpoint>, mod: Endpoint): seq<Endpoint> {
    if endpoints == [] then [mod]
    else if endpoints[0].path == mod.path && endpoints[0].action == mod.action then [mod] + endpoints[1..]
    else [endpoints[0]] + PutEndpoint(endpoints[1..], mod)
  }

  function PutEndpoints(endpoints: seq<Endpoint>, mods: seq<Endpoint>): seq<Endpoint> {
    if mods == [] then endpoints else PutEndpoint(PutEndpoints(endpoints, Front(mods)), Last(mods))
  }

  function PutTable(tables: seq<Table>, mod: Table): seq<Table> {
    if tables == [] then [mod]
    else if tables[0].name == mod.name then [mod] + tables[1..]
    else [tables[0]] + PutTable(tables[1..], mod)
  }

  function PutTables(tables: seq<Table>, mods: seq<Table>): seq<Table> {
    if mods == [] then tables else PutTable(PutTables(tables, Front(mods)), Last(mods))
  }

  function Merge(base: StrMap, update: StrMap): StrMap {
    if update.None? then base
    else if base.None? then update
    else Some(base.value + update.value)
  }

  /** The same with the empty map made for a nil base, as the code does it. */
  function MergeInto(base: StrMap, update: StrMap): (r: StrMap)
    ensures r == Merge(base, update)
  {
    if update.None? then base
    else
      var start := if base.None? then map[] else base.value;
      assert map[] + update.value == update.value;
      Some(start + update.value)
  }

  function MergeColors(base: StrMap, update: StrMap): StrMap {
    if update.None? || update.value == map[] then base else Merge(base, update)
  }

  function MergeDesign(base: Option<Design>, update: Option<Design>): Option<Design> {
    if update.None? then base
    else if base.None? then update
    else
      var d, u := base.value, update.value;
      Some(Design(
        MergeColors(d.colors, u.colors), Merge(d.extended, u.extended), Merge(d.components, u.components),
        if u.typography.Some? then u.typography else d.typography,
        if u.intent != "" then u.intent else d.intent,
        u.darkMode))
  }

  function Patched(p: PlanData, patch: Patch): PlanData {
    p.(
      pages := Modified(Removed(p.pages, patch.removePages), patch.modifyPages) + patch.addPages,
      endpoints := PutEndpoints(p.endpoints, patch.modifyEndpoints) + Admitted(p.exclusions, patch.addEndpoints),
      tables := PutTables(p.tables, patch.modifyTables) + patch.addTables,
      webhooks := p.webhooks + patch.addWebhooks,
      components := p.components + patch.addComponents,
      tasks := p.tasks + patch.addTasks,
      authStrategy := if patch.updateAuthStrategy != "" then patch.updateAuthStrategy else p.authStrategy,
      layout := if patch.updateLayout.Some? then patch.updateLayout else p.layout,
      design := MergeDesign(p.design, patch.updateDesign))
  }

  /** A color is written into the nil map of an existing design system, which panics. */
  predicate WritesNil(base: Option<Design>, update: Option<Design>) {
    && base.Some? && update.Some? && base.value.colors.None?
    && update.value.colors.Some? && update.value.colors.value != map[]
  }

  /** A design without colors is reported by the validator, so a valid plan is never met by the panic. */
  lemma ValidNeverPanics(p: PlanData, patch: Patch)
    requires Valid(p)
    ensures !WritesNil(p.design, patch.updateDesign)
  {}

  // -------------------------------------------------------------- the method

  lemma {:induction false} RemoveFirstAt(pages: seq<Page>, path: string, i: nat)
    requires i < |pages| && pages[i].path == path && forall k :: 0 <= k < i ==> pages[k].path != path
    ensures RemoveFirst(pages, path) == pages[..i] + pages[i + 1..]
    decreases i
  {
    if i > 0 {
      RemoveFirstAt(pages[1..], path, i - 1);
      assert pages[..i] == [pages[0]] + pages[1..][..i - 1];
    }
  }

  lemma {:induction false} RemoveFirstNone(pages: seq<Page>, path: string)
    requires forall k :: 0 <= k < |pages| ==> pages[k].path != path
    ensures RemoveFirst(pages, path) == pages
    decreases |pages|
  {
    if pages != [] {
      RemoveFirstNone(pages[1..], path);
    }
  }

  lemma {:induction false} ReplaceFirstAt(pages: seq<Page>, mod: Page, i: nat)
    requires i <= |pages| && forall k :: 0 <= k < i ==> pages[k].path != mod.path
    requires i < |pages| ==> pages[i].path == mod.path
    ensures ReplaceFirst(pages, mod) == if i < |pages| then pages[i := mod] else pages
    decreases i
  {
    if i > 0 {
      ReplaceFirstAt(pages[1..], mod, i - 1);
    }
  }

  lemma {:induction false} PutEndpointAt(endpoints: seq<Endpoint>, mod: Endpoint, i: nat)
    requires i <= |endpoints|
    requires forall k :: 0 <= k < i ==> !(endpoints[k].path == mod.path && endpoints[k].action == mod.action)
    requires i < |endpoints| ==> endpoints[i].path == mod.path && endpoints[i].action == mod.action
    ensures PutEndpoint(endpoints, mod) == if i < |endpoints| then endpoints[i := mod] else endpoints + [mod]
    decreases i
  {
    if i > 0 {
      PutEndpointAt(endpoints[1..], mod, i - 1);
    }
  }

  lemma {:induction false} PutTableAt(tables: seq<Table>, mod: Table, i: nat)
    requires i <= |tables| && forall k :: 0 <= k < i ==> tables[k].name != mod.name
    requires i < |tables| ==> tables[i].name == mod.name
    ensures PutTable(tables, mod) == if i < |tables| then tables[i := mod] else tables + [mod]
    decreases i
  {
    if i > 0 {
      PutTableAt(tables[1..], mod, i - 1);
    }
  }

  /** The plan object that is edited in place. */
  class Plan {
    const appType: string
    const exclusions: seq<string>
    var authStrategy: string
    var design: Option<Design>
    var layout: Option<Layout>
    var tables: seq<Table>
    var endpoints: seq<Endpoint>
    var pages: seq<Page>
    var webhooks: seq<string>
    var components: seq<string>
    var tasks: seq<string>

    constructor (p: PlanData)
      ensures Data() == p
    {
      appType, exclusions, authStrategy, design, layout := p.appType, p.exclusions, p.authStrategy, p.design, p.layout;
      tables, endpoints, pages := p.tables, p.endpoints, p.pages;
      webhooks, components, tasks := p.webhooks, p.components, p.tasks;
    }

    function Data(): PlanData
      reads this
    {
      PlanData(appType, authStrategy, design, layout, tables, endpoints, pages, webhooks, components, tasks, exclusions)
    }

    method RemovePages(paths: seq<string>)
      modifies `pages
      ensures pages == Removed(old(pages), paths)
    {
      for r := 0 to |paths|
        invariant pages == Removed(old(pages), paths[..r])
      {
        assert Front(paths[..r + 1]) == paths[..r];
        var i := 0;
        while i < |pages| && pages[i].path != paths[r]
          invariant i <= |pages| && forall k :: 0 <= k < i ==> pages[k].path != paths[r]
        {
          i := i + 1;
        }
        if i < |pages| {
          RemoveFirstAt(pages, paths[r], i);
          pages := pages[..i] + pages[i + 1..];
        } else {
          RemoveFirstNone(pages, paths[r]);
        }
      }
      assert paths[..|paths|] == paths;
    }

    method ModifyPages(mods: seq<Page>)
      modifies `pages
      ensures pages == Modified(old(pages), mods)
    {
      for m := 0 to |mods|
        invariant pages == Modified(old(pages), mods[..m])
      {
        assert Front(mods[..m + 1]) == mods[..m];
        var i := 0;
        while i < |pages| && pages[i].path != mods[m].path
          invariant i <= |pages| && forall k :: 0 <= k < i ==> pages[k].path != mods[m].path
        {
          i := i + 1;
        }
        ReplaceFirstAt(pages, mods[m], i);
        if i < |pages| {
          pages := pages[i := mods[m]];
        }
      }
      assert mods[..|mods|] == mods;
    }

    method ModifyEndpoints(mods: seq<Endpoint>)
      modifies `endpoints
      ensures endpoints == PutEndpoints(old(endpoints), mods)
    {
      for m := 0 to |mods|
        invariant endpoints == PutEndpoints(old(endpoints), mods[..m])
      {
        var mod := mods[m];
        assert Front(mods[..m + 1]) == mods[..m];
        var i := 0;
        while i < |endpoints| && !(endpoints[i].path == mod.path && endpoints[i].action == mod.action)
          invariant i <= |endpoints|
          invariant forall k :: 0 <= k < i ==> !(endpoints[k].path == mod.path && endpoints[k].action == mod.action)
        {
          i := i + 1;
        }
        PutEndpointAt(endpoints, mod, i);
        if i < |endpoints| {
          endpoints := endpoints[i := mod];
        } else {
          endpoints := endpoints + [mod];
        }
      }
      assert mods[..|mods|] == mods;
    }

    method ModifyTables(mods: seq<Table>)
      modifies `tables
      ensures tables == PutTables(old(tables), mods)
    {
      for m := 0 to |mods|
        invariant tables == PutTables(old(tables), mods[..m])
      {
        var mod := mods[m];
        assert Front(mods[..m + 1]) == mods[..m];
        var i := 0;
        while i < |tables| && tables[i].name != mod.name
          invariant i <= |tables| && forall k :: 0 <= k < i ==> tables[k].name != mod.name
        {
          i := i + 1;
        }
        PutTableAt(tables, mod, i);
        if i < |tables| {
          tables := tables[i := mod];
        } else {
          tables := tables + [mod];
        }
      }
      assert mods[..|mods|] == mods;
    }

    method FilterAuth(candidates: seq<Endpoint>) returns (filtered: seq<Endpoint>)
      ensures filtered == Admitted(exclusions, candidates)
    {
      filtered := [];
      for i := 0 to |candidates|
        invariant filtered == Admitted(exclusions, candidates[..i])
      {
        assert Front(candidates[..i + 1]) == candidates[..i];
        if candidates[i].action == "create_auth" && ExcludesAuth(exclusions) {
          continue;
        }
        filtered := filtered + [candidates[i]];
      }
      assert candidates[..|candidates|] == candidates;
    }

    method UpdateDesign(u: Design) returns (panics: bool)
      modifies `design
      ensures panics <==> WritesNil(old(design), Some(u))
      ensures design == if panics then old(design) else MergeDesign(old(design), Some(u))
    {
      panics := false;
      if design.None? {
        design := Some(u);
      } else {
        var d := design.value;
        if u.colors.Some? && u.colors.value != map[] {
          if d.colors.None? {
            return true;
          }
          d := d.(colors := Some(d.colors.value + u.colors.value));
        }
        if u.typography.Some? {
          d := d.(typography := u.typography);
        }
        if u.intent != "" {
          d := d.(intent := u.intent);
        }
        d := d.(darkMode := u.darkMode);
        d := d.(extended := MergeInto(d.extended, u.extended));
        d := d.(components := MergeInto(d.components, u.components));
        design := Some(d);
      }
    }

    method ApplyLists(patch: Patch)
      modifies this
      ensures design == old(design) && authStrategy == old(authStrategy) && layout == old(layout)
      ensures
        var was, all := old(Data()), Patched(old(Data()), patch);
        Data() == all.(authStrategy := was.authStrategy, layout := was.layout, design := was.design)
    {
      var admitted := FilterAuth(patch.addEndpoints);
      RemovePages(patch.removePages);
      ModifyPages(patch.modifyPages);
      pages := pages + patch.addPages;
      ModifyEndpoints(patch.modifyEndpoints);
      ModifyTables(patch.modifyTables);
      endpoints := endpoints + admitted;
      tables := tables + patch.addTables;
      webhooks := webhooks + patch.addWebhooks;
      components := components + patch.addComponents;
      tasks := tasks + patch.addTasks;
    }

    /** When the call panics, everything but the design has been changed already. */
    method ApplyPatch(patch: Patch) returns (panics: bool)
      modifies this
      ensures panics <==> WritesNil(old(design), patch.updateDesign)
      ensures
        var all := Patched(old(Data()), patch);
        Data() == if panics then all.(design := old(design)) else all
    {
      panics := false;
      ApplyLists(patch);
      if patch.updateAuthStrategy != "" {
        authStrategy := patch.updateAuthStrategy;
      }
      if patch.updateLayout.Some? {
        layout := patch.updateLayout;
      }
      if patch.updateDesign.Some? {
        panics := UpdateDesign(patch.updateDesign.value);
      }
    }
  }

  // ------------------------------------------------ when a valid plan stays valid

  /** The last word on a table name among the modifications. */
  predicate LastMod(mods: seq<Table>, i: nat)
    requires i < |mods|
  {
    forall j :: i < j < |mods| ==> mods[j].name != mods[i].name
  }

  predicate PagesAcceptable(pages: seq<Page>, patch: Patch) {
    var added := Paths(patch.addPages);
    && Distinct(added)
    && (forall path :: path in added && path in Paths(pages) ==> path in patch.removePages)
    && ("/" in added || ("/" in Paths(pages) && "/" !in patch.removePages))
  }

  predicate TablesAcceptable(patch: Patch) {
    && (forall i :: 0 <= i < |patch.modifyTables| && LastMod(patch.modifyTables, i) ==>
          ValidTable(patch.modifyTables[i]))
    && ValidTables(patch.addTables)
  }

  predicate BlanksNo(colors: StrMap, key: string) {
    colors.Some? && key in colors.value ==> colors.value[key] != ""
  }

  predicate DesignAcceptable(design: Option<Design>, update: Option<Design>) {
    update.Some? ==>
      if design.None? then ValidDesign(update.value)
      else BlanksNo(update.value.colors, "primary") && BlanksNo(update.value.colors, "bg")
  }

  /** What a caller can check of the patch against the plan it is meant for. */
  predicate Acceptable(p: PlanData, patch: Patch) {
    && PagesAcceptable(p.pages, patch)
    && ValidEndpoints(patch.modifyEndpoints)
    && ValidEndpoints(Admitted(p.exclusions, patch.addEndpoints))
    && TablesAcceptable(patch)
    && DesignAcceptable(p.design, patch.updateDesign)
    && (patch.updateLayout.Some? ==> ValidLayout(patch.updateLayout.value))
  }

  // Pages

  lemma {:induction false} RemoveFirstPaths(pages: seq<Page>, path: string)
    requires Distinct(Paths(pages))
    ensures Distinct(Paths(RemoveFirst(pages, path)))
    ensures forall q :: q in Paths(RemoveFirst(pages, path)) <==> q in Paths(pages) && q != path
    decreases |pages|
  {
    if pages != [] {
      var rest := Paths(pages[1..]);
      DistinctCons(pages[0].path, rest);
      if pages[0].path != path {
        RemoveFirstPaths(pages[1..], path);
        assert RemoveFirst(pages, path)[1..] == RemoveFirst(pages[1..], path);
        DistinctCons(pages[0].path, Paths(RemoveFirst(pages[1..], path)));
      }
    }
  }

  lemma DistinctCons<T>(x: T, s: seq<T>)
    ensures Distinct([x] + s) <==> Distinct(s) && x !in s
  {
    var t := [x] + s;
    if Distinct(t) {
      forall i, j | 0 <= i < j < |s| ensures s[i] != s[j] {
        assert t[i + 1] != t[j + 1];
      }
      forall i | 0 <= i < |s| ensures s[i] != x {
        assert t[0] != t[i + 1];
      }
    }
  }

  lemma {:induction false} RemovedPaths(pages: seq<Page>, paths: seq<string>)
    requires Distinct(Paths(pages))
    ensures Distinct(Paths(Removed(pages, paths)))
    ensures forall q :: q in Paths(Removed(pages, paths)) <==> q in Paths(pages) && q !in paths
    decreases |paths|
  {
    if paths != [] {
      RemovedPaths(pages, Front(paths));
      RemoveFirstPaths(Removed(pages, Front(paths)), Last(paths));
      assert paths == Front(paths) + [Last(paths)];
    }
  }

  lemma {:induction false} ReplaceFirstPaths(pages: seq<Page>, mod: Page)
    ensures Paths(ReplaceFirst(pages, mod)) == Paths(pages)
    decreases |pages|
  {
    if pages != [] {
      ReplaceFirstPaths(pages[1..], mod);
      assert ([mod] + pages[1..])[1..] == pages[1..];
      assert ([pages[0]] + ReplaceFirst(pages[1..], mod))[1..] == ReplaceFirst(pages[1..], mod);
    }
  }

  lemma {:induction false} ModifiedPaths(pages: seq<Page>, mods: seq<Page>)
    ensures Paths(Modified(pages, mods)) == Paths(pages)
    decreases |mods|
  {
    if mods != [] {
      ModifiedPaths(pages, Front(mods));
      ReplaceFirstPaths(Modified(pages, Front(mods)), Last(mods));
    }
  }

  lemma {:induction false} DistinctConcat<T>(s: seq<T>, t: seq<T>)
    ensures Distinct(s + t) <==> Distinct(s) && Distinct(t) && forall x :: x in t ==> x !in s
    decreases |t|
  {
    if t == [] {
      assert s + t == s;
    } else {
      assert s + t == (s + Front(t)) + [Last(t)];
      assert t == Front(t) + [Last(t)];
      DistinctConcat(s, Front(t));
      DistinctSnoc(s + Front(t), Last(t));
      DistinctSnoc(Front(t), Last(t));
    }
  }

  lemma {:induction false} PathsConcat(a: seq<Page>, b: seq<Page>)
    ensures Paths(a + b) == Paths(a) + Paths(b)
    decreases |a|
  {
    if a == [] {
      assert a + b == b;
    } else {
      assert (a + b)[1..] == a[1..] + b;
      PathsConcat(a[1..], b);
    }
  }

  lemma PagesStayValidIff(pages: seq<Page>, patch: Patch)
    requires ValidPages(pages)
    ensures ValidPages(Modified(Removed(pages, patch.removePages), patch.modifyPages) + patch.addPages)
            <==> PagesAcceptable(pages, patch)
  {
    var kept := Removed(pages, patch.removePages);
    RemovedPaths(pages, patch.removePages);
    ModifiedPaths(kept, patch.modifyPages);
    PathsConcat(Modified(kept, patch.modifyPages), patch.addPages);
    DistinctConcat(Paths(kept), Paths(patch.addPages));
  }

  // Endpoints

  lemma {:induction false} PutEndpointValid(endpoints: seq<Endpoint>, mod: Endpoint)
    ensures ValidEndpoints(PutEndpoint(endpoints, mod)) <==> ValidEndpoints(endpoints) && ValidEndpoint(mod)
    decreases |endpoints|
  {
    ValidEndpointsCons(mod, []);
    if endpoints != [] {
      assert endpoints == [endpoints[0]] + endpoints[1..];
      ValidEndpointsCons(endpoints[0], endpoints[1..]);
      if endpoints[0].path == mod.path && endpoints[0].action == mod.action {
        ValidEndpointsCons(mod, endpoints[1..]);
      } else {
        PutEndpointValid(endpoints[1..], mod);
        ValidEndpointsCons(endpoints[0], PutEndpoint(endpoints[1..], mod));
      }
    }
  }

  lemma ValidEndpointsCons(e: Endpoint, rest: seq<Endpoint>)
    ensures ValidEndpoints([e] + rest) <==> ValidEndpoint(e) && ValidEndpoints(rest)
    ensures ValidEndpoints([e]) <==> ValidEndpoint(e)
  {
    var all := [e] + rest;
    if ValidEndpoints(all) {
      assert ValidEndpoint(all[0]);
      forall i | 0 <= i < |rest| ensures ValidEndpoint(rest[i]) {
        assert ValidEndpoint(all[i + 1]);
      }
    }
    assert ValidEndpoint([e][0]) <==> ValidEndpoint(e);
  }

  lemma {:induction false} PutEndpointsValid(endpoints: seq<Endpoint>, mods: seq<Endpoint>)
    requires ValidEndpoints(endpoints)
    ensures ValidEndpoints(PutEndpoints(endpoints, mods)) <==> ValidEndpoints(mods)
    decreases |mods|
  {
    if mods != [] {
      PutEndpointsValid(endpoints, Front(mods));
      PutEndpointValid(PutEndpoints(endpoints, Front(mods)), Last(mods));
      assert mods == Front(mods) + [Last(mods)];
      assert ValidEndpoints(mods) <==> ValidEndpoints(Front(mods)) && ValidEndpoint(Last(mods));
    }
  }

  // Tables: an invalid modification is harmless when a later one replaces it.

  predicate FirstOfName(tables: seq<Table>, k: nat)
    requires k < |tables|
  {
    forall j :: 0 <= j < k ==> tables[j].name != tables[k].name
  }

  /** tables[k] is what the modifications last said about its name. */
  predicate IsLastWord(tables: seq<Table>, k: nat, mods: seq<Table>, i: nat)
    requires k < |tables| && i < |mods|
  {
    FirstOfName(tables, k) && LastMod(mods, i) && tables[k] == mods[i]
  }

  ghost predicate TablesFollow(tables: seq<Table>, mods: seq<Table>) {
    && (forall i: nat :: i < |mods| && LastMod(mods, i) ==>
                           exists k: nat :: k < |tables| && IsLastWord(tables, k, mods, i))
    && (forall k: nat :: k < |tables| && !ValidTable(tables[k]) ==>
          exists i: nat :: i < |mods| && IsLastWord(tables, k, mods, i))
  }

  lemma FirstIndex(tables: seq<Table>, name: string) returns (k: nat)
    ensures k <= |tables| && forall j :: 0 <= j < k ==> tables[j].name != name
    ensures k < |tables| ==> tables[k].name == name
  {
    k := 0;
    while k < |tables| && tables[k].name != name
      invariant k <= |tables| && forall j :: 0 <= j < k ==> tables[j].name != name
    {
      k := k + 1;
    }
  }

  /** A last word about another name than mod's stays one. */
  lemma LastWordKept(tables: seq<Table>, k: nat, mods: seq<Table>, i: nat, mod: Table, at: nat)
    requires at <= |tables| && forall j :: 0 <= j < at ==> tables[j].name != mod.name
    requires at < |tables| ==> tables[at].name == mod.name
    requires k < |tables| && k != at && i < |mods| && IsLastWord(tables, k, mods, i) && mods[i].name != mod.name
    ensures IsLastWord(if at < |tables| then tables[at := mod] else tables + [mod], k, mods + [mod], i)
  {}

  lemma PutTableCovers(tables: seq<Table>, mods: seq<Table>, mod: Table, i: nat)
    requires TablesFollow(tables, mods) && i <= |mods| && LastMod(mods + [mod], i)
    ensures exists k: nat :: k < |PutTable(tables, mod)| && IsLastWord(PutTable(tables, mod), k, mods + [mod], i)
  {
    var at := FirstIndex(tables, mod.name);
    PutTableAt(tables, mod, at);
    var after, all := PutTable(tables, mod), mods + [mod];
    if i == |mods| {
      assert IsLastWord(after, at, all, i);
    } else {
      assert all[|mods|].name != all[i].name;
      forall j | i < j < |mods| ensures mods[j].name != mods[i].name {
        assert all[j].name != all[i].name;
      }
      assert LastMod(mods, i);
      var k: nat :| k < |tables| && IsLastWord(tables, k, mods, i);
      LastWordKept(tables, k, mods, i, mod, at);
    }
  }

  lemma PutTableFollows(tables: seq<Table>, mods: seq<Table>, mod: Table)
    requires TablesFollow(tables, mods)
    ensures TablesFollow(PutTable(tables, mod), mods + [mod])
  {
    var at := FirstIndex(tables, mod.name);
    PutTableAt(tables, mod, at);
    var after, all := PutTable(tables, mod), mods + [mod];
    forall i: nat | i < |all| && LastMod(all, i) ensures exists k: nat :: k < |after| && IsLastWord(after, k, all, i) {
      PutTableCovers(tables, mods, mod, i);
    }
    forall k: nat | k < |after| && !ValidTable(after[k])
      ensures exists i: nat :: i < |all| && IsLastWord(after, k, all, i)
    {
      if k == at {
        assert IsLastWord(after, k, all, |mods|);
      } else {
        var i: nat :| i < |mods| && IsLastWord(tables, k, mods, i);
        LastWordKept(tables, k, mods, i, mod, at);
      }
    }
  }

  lemma {:induction false} PutTablesFollow(tables: seq<Table>, mods: seq<Table>)
    requires ValidTables(tables)
    ensures TablesFollow(PutTables(tables, mods), mods)
    decreases |mods|
  {
    if mods != [] {
      PutTablesFollow(tables, Front(mods));
      PutTableFollows(PutTables(tables, Front(mods)), Front(mods), Last(mods));
      assert mods == Front(mods) + [Last(mods)];
    }
  }

  lemma TablesStayValidIff(tables: seq<Table>, patch: Patch)
    requires ValidTables(tables)
    ensures ValidTables(PutTables(tables, patch.modifyTables) + patch.addTables) <==> TablesAcceptable(patch)
  {
    var mods := patch.modifyTables;
    var put := PutTables(tables, mods);
    PutTablesFollow(tables, mods);
    assert ValidTables(put) <==> forall i :: 0 <= i < |mods| && LastMod(mods, i) ==> ValidTable(mods[i]) by {
      if ValidTables(put) {
        forall i: nat | i < |mods| && LastMod(mods, i) ensures ValidTable(mods[i]) {
          var k: nat :| k < |put| && IsLastWord(put, k, mods, i);
          assert ValidTable(put[k]);
        }
      }
    }
    ValidTablesConcat(put, patch.addTables);
  }

  lemma ValidTablesConcat(a: seq<Table>, b: seq<Table>)
    ensures ValidTables(a + b) <==> ValidTables(a) && ValidTables(b)
  {
    var all := a + b;
    if ValidTables(all) {
      forall i | 0 <= i < |a| ensures ValidTable(a[i]) { assert ValidTable(all[i]); }
      forall i | 0 <= i < |b| ensures ValidTable(b[i]) { assert ValidTable(all[|a| + i]); }
    }
  }

  lemma ValidEndpointsConcat(a: seq<Endpoint>, b: seq<Endpoint>)
    ensures ValidEndpoints(a + b) <==> ValidEndpoints(a) && ValidEndpoints(b)
  {
    var all := a + b;
    if ValidEndpoints(all) {
      forall i | 0 <= i < |a| ensures ValidEndpoint(a[i]) { assert ValidEndpoint(all[i]); }
      forall i | 0 <= i < |b| ensures ValidEndpoint(b[i]) { assert ValidEndpoint(all[|a| + i]); }
    }
  }

  lemma DesignStaysValidIff(design: Option<Design>, update: Option<Design>)
    requires design.Some? ==> ValidDesign(design.value)
    ensures (MergeDesign(design, update).Some? ==> ValidDesign(MergeDesign(design, update).value))
            <==> DesignAcceptable(design, update)
  {}

  /** A valid plan stays valid under a patch exactly when the patch is acceptable for it. */
  lemma PatchKeepsValidIff(p: PlanData, patch: Patch)
    requires Valid(p)
    ensures Valid(Patched(p, patch)) <==> Acceptable(p, patch)
  {
    PagesStayValidIff(p.pages, patch);
    PutEndpointsValid(p.endpoints, patch.modifyEndpoints);
    ValidEndpointsConcat(PutEndpoints(p.endpoints, patch.modifyEndpoints), Admitted(p.exclusions, patch.addEndpoints));
    TablesStayValidIff(p.tables, patch);
    DesignStaysValidIff(p.design, patch.updateDesign);
  }

  /** The same in terms of the reported errors. */
  lemma PatchKeepsNoErrorsIff(p: PlanData, patch: Patch)
    requires Errors(p) == []
    ensures Errors(Patched(p, patch)) == [] <==> Acceptable(p, patch)
  {
    NoErrorsIffValid(p);
    NoErrorsIffValid(Patched(p, patch));
    PatchKeepsValidIff(p, patch);
  }

  // ------------------------------------------------- pages the patch does not name

  predicate Named(patch: Patch, path: string) {
    path in patch.removePages || path in Paths(patch.modifyPages) || path in Paths(patch.addPages)
  }

  function Unnamed(pages: seq<Page>, patch: Patch): seq<Page> {
    if pages == [] then []
    else (if Named(patch, pages[0].path) then [] else [pages[0]]) + Unnamed(pages[1..], patch)
  }

  lemma {:induction false} UnnamedRemove(pages: seq<Page>, path: string, patch: Patch)
    requires path in patch.removePages
    ensures Unnamed(RemoveFirst(pages, path), patch) == Unnamed(pages, patch)
    decreases |pages|
  {
    if pages != [] && pages[0].path != path {
      UnnamedRemove(pages[1..], path, patch);
      assert RemoveFirst(pages, path)[1..] == RemoveFirst(pages[1..], path);
    }
  }

  lemma {:induction false} UnnamedReplace(pages: seq<Page>, mod: Page, patch: Patch)
    requires Named(patch, mod.path)
    ensures Unnamed(ReplaceFirst(pages, mod), patch) == Unnamed(pages, patch)
    decreases |pages|
  {
    if pages != [] {
      if pages[0].path == mod.path {
        assert ([mod] + pages[1..])[1..] == pages[1..];
      } else {
        UnnamedReplace(pages[1..], mod, patch);
        assert ReplaceFirst(pages, mod)[1..] == ReplaceFirst(pages[1..], mod);
      }
    }
  }

  lemma {:induction false} UnnamedRemoved(pages: seq<Page>, paths: seq<string>, patch: Patch)
    requires forall q :: q in paths ==> q in patch.removePages
    ensures Unnamed(Removed(pages, paths), patch) == Unnamed(pages, patch)
    decreases |paths|
  {
    if paths != [] {
      UnnamedRemoved(pages, Front(paths), patch);
      UnnamedRemove(Removed(pages, Front(paths)), Last(paths), patch);
    }
  }

  lemma {:induction false} UnnamedModified(pages: seq<Page>, mods: seq<Page>, patch: Patch)
    requires forall k :: 0 <= k < |mods| ==> Named(patch, mods[k].path)
    ensures Unnamed(Modified(pages, mods), patch) == Unnamed(pages, patch)
    decreases |mods|
  {
    if mods != [] {
      UnnamedModified(pages, Front(mods), patch);
      UnnamedReplace(Modified(pages, Front(mods)), Last(mods), patch);
    }
  }

  lemma {:induction false} UnnamedConcat(a: seq<Page>, b: seq<Page>, patch: Patch)
    ensures Unnamed(a + b, patch) == Unnamed(a, patch) + Unnamed(b, patch)
    decreases |a|
  {
    if a == [] {
      assert a + b == b;
    } else {
      assert (a + b)[1..] == a[1..] + b;
      UnnamedConcat(a[1..], b, patch);
    }
  }

  lemma {:induction false} AllNamed(pages: seq<Page>, patch: Patch)
    requires forall k :: 0 <= k < |pages| ==> Named(patch, pages[k].path)
    ensures Unnamed(pages, patch) == []
    decreases |pages|
  {
    if pages != [] {
      AllNamed(pages[1..], patch);
    }
  }

  /** For every plan, valid or not: pages the patch does not name keep content and order. */
  lemma UnnamedPagesKept(p: PlanData, patch: Patch)
    ensures Unnamed(Patched(p, patch).pages, patch) == Unnamed(p.pages, patch)
  {
    var kept := Removed(p.pages, patch.removePages);
    PathsAt(patch.modifyPages);
    PathsAt(patch.addPages);
    forall k | 0 <= k < |patch.modifyPages| ensures Named(patch, patch.modifyPages[k].path) {
      assert Paths(patch.modifyPages)[k] in Paths(patch.modifyPages);
    }
    forall k | 0 <= k < |patch.addPages| ensures Named(patch, patch.addPages[k].path) {
      assert Paths(patch.addPages)[k] in Paths(patch.addPages);
    }
    UnnamedRemoved(p.pages, patch.removePages, patch);
    UnnamedModified(kept, patch.modifyPages, patch);
    AllNamed(patch.addPages, patch);
    UnnamedConcat(Modified(kept, patch.modifyPages), patch.addPages, patch);
  }
}
