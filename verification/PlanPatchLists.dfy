/** brain/plan.go: the lists and the design of a patched plan in full, element by element, for
    every plan and every patch. */
module PlanPatchLists {
  import opened Wrappers
  import opened Text
  import opened PlanModel
  import opened PlanPatch
  import opened KeyedLists

  function TableKey(t: Table): string { t.name }
  function EndpointKey(e: Endpoint): (string, string) { (e.path, e.action) }
  function PageKey(p: Page): string { p.path }

  // ------------------------------------------------------------ modifications

  lemma {:induction false} PutTableIs(tables: seq<Table>, mod: Table)
    ensures PutTable(tables, mod) == Put(tables, mod, TableKey, true)
    decreases |tables|
  {
    if tables != [] {
      PutTableIs(tables[1..], mod);
    }
  }

  lemma {:induction false} PutTablesAre(tables: seq<Table>, mods: seq<Table>)
    ensures PutTables(tables, mods) == PutAll(tables, mods, TableKey, true)
    decreases |mods|
  {
    if mods != [] {
      PutTablesAre(tables, Front(mods));
      PutTableIs(PutTables(tables, Front(mods)), Last(mods));
    }
  }

  /** The first table of each modified name holds its last modification, every other is as it
      was, and the new names follow in order of first appearance, each with its last. */
  lemma PutTablesExactly(tables: seq<Table>, mods: seq<Table>)
    ensures Exactly(tables, mods, TableKey, true, PutTables(tables, mods))
  {
    PutTablesAre(tables, mods);
    PutAllExactly(tables, mods, TableKey, true);
  }

  lemma {:induction false} PutEndpointIs(endpoints: seq<Endpoint>, mod: Endpoint)
    ensures PutEndpoint(endpoints, mod) == Put(endpoints, mod, EndpointKey, true)
    decreases |endpoints|
  {
    if endpoints != [] {
      PutEndpointIs(endpoints[1..], mod);
    }
  }

  lemma {:induction false} PutEndpointsAre(endpoints: seq<Endpoint>, mods: seq<Endpoint>)
    ensures PutEndpoints(endpoints, mods) == PutAll(endpoints, mods, EndpointKey, true)
    decreases |mods|
  {
    if mods != [] {
      PutEndpointsAre(endpoints, Front(mods));
      PutEndpointIs(PutEndpoints(endpoints, Front(mods)), Last(mods));
    }
  }

  /** The same for endpoints, by path and action together. */
  lemma PutEndpointsExactly(endpoints: seq<Endpoint>, mods: seq<Endpoint>)
    ensures Exactly(endpoints, mods, EndpointKey, true, PutEndpoints(endpoints, mods))
  {
    PutEndpointsAre(endpoints, mods);
    PutAllExactly(endpoints, mods, EndpointKey, true);
  }

  lemma {:induction false} ReplaceFirstIs(pages: seq<Page>, mod: Page)
    ensures ReplaceFirst(pages, mod) == Put(pages, mod, PageKey, false)
    decreases |pages|
  {
    if pages != [] {
      ReplaceFirstIs(pages[1..], mod);
    }
  }

  lemma {:induction false} ModifiedAre(pages: seq<Page>, mods: seq<Page>)
    ensures Modified(pages, mods) == PutAll(pages, mods, PageKey, false)
    decreases |mods|
  {
    if mods != [] {
      ModifiedAre(pages, Front(mods));
      ReplaceFirstIs(Modified(pages, Front(mods)), Last(mods));
    }
  }

  /** And for pages, where a modification of a path there is not is forgotten. */
  lemma ModifiedExactly(pages: seq<Page>, mods: seq<Page>)
    ensures Exactly(pages, mods, PageKey, false, Modified(pages, mods))
  {
    ModifiedAre(pages, mods);
    PutAllExactly(pages, mods, PageKey, false);
  }

  // ----------------------------------------------------------------- removals

  function Times(paths: seq<string>, path: string): nat {
    if paths == [] then 0 else Times(Front(paths), path) + if Last(paths) == path then 1 else 0
  }

  function PagesAt(pages: seq<Page>, path: string): nat {
    if pages == [] then 0 else PagesAt(Front(pages), path) + if Last(pages).path == path then 1 else 0
  }

  /** A page stays when at least as many pages of its path come before it as the path is
      listed for removal: each listing takes away one page, the first that is left. */
  function Staying(pages: seq<Page>, paths: seq<string>): seq<Page> {
    if pages == [] then []
    else
      var page := Last(pages);
      Staying(Front(pages), paths) +
      if PagesAt(Front(pages), page.path) >= Times(paths, page.path) then [page] else []
  }

  lemma {:induction false} StayingCount(pages: seq<Page>, paths: seq<string>, path: string)
    ensures
      var n, k := PagesAt(pages, path), Times(paths, path);
      PagesAt(Staying(pages, paths), path) == if n > k then n - k else 0
    decreases |pages|
  {
    if pages != [] {
      var page := Last(pages);
      StayingCount(Front(pages), paths, path);
      var rest := Staying(Front(pages), paths);
      assert Front(rest + [page]) == rest && rest + [] == rest;
    }
  }

  lemma {:induction false} NoneAt(pages: seq<Page>, path: string)
    ensures PagesAt(pages, path) == 0 <==> forall k :: 0 <= k < |pages| ==> pages[k].path != path
    decreases |pages|
  {
    if pages != [] {
      NoneAt(Front(pages), path);
      assert pages[|pages| - 1] == Last(pages);
      assert forall k :: 0 <= k < |pages| - 1 ==> Front(pages)[k] == pages[k];
    }
  }

  /** Removing from a list with one more page behind. */
  lemma {:induction false} RemoveFirstSnoc(pages: seq<Page>, page: Page, path: string)
    ensures RemoveFirst(pages + [page], path) ==
            if PagesAt(pages, path) > 0 then RemoveFirst(pages, path) + [page]
            else if page.path == path then pages else pages + [page]
    decreases |pages|
  {
    NoneAt(pages, path);
    var all := pages + [page];
    if exists k :: 0 <= k < |pages| && pages[k].path == path {
      var i := 0;
      while pages[i].path != path
        invariant 0 <= i < |pages| && (forall k :: 0 <= k < i ==> pages[k].path != path)
        invariant exists k :: i <= k < |pages| && pages[k].path == path
        decreases |pages| - i
      {
        i := i + 1;
      }
      RemoveFirstAt(pages, path, i);
      RemoveFirstAt(all, path, i);
    } else if page.path == path {
      RemoveFirstAt(all, path, |pages|);
    } else {
      RemoveFirstNone(all, path);
    }
  }

  lemma {:induction false} RemoveOneMore(pages: seq<Page>, paths: seq<string>, path: string)
    ensures RemoveFirst(Staying(pages, paths), path) == Staying(pages, paths + [path])
    decreases |pages|
  {
    if pages != [] {
      var before, page := Front(pages), Last(pages);
      RemoveOneMore(before, paths, path);
      assert Front(paths + [path]) == paths;
      StayingCount(before, paths, path);
      var rest := Staying(before, paths);
      RemoveFirstSnoc(rest, page, path);
      assert rest + [] == rest && Staying(before, paths + [path]) + [] == Staying(before, paths + [path]);
      assert Times(paths + [path], page.path) == Times(paths, page.path) + if path == page.path then 1 else 0;
      if PagesAt(rest, path) == 0 {
        NoneAt(rest, path);
        RemoveFirstNone(rest, path);
      }
    }
  }

  lemma {:induction false} AllStay(pages: seq<Page>)
    ensures Staying(pages, []) == pages
    decreases |pages|
  {
    if pages != [] {
      AllStay(Front(pages));
      assert pages == Front(pages) + [Last(pages)];
    }
  }

  /** For every list of pages and of paths, repeated or not. */
  lemma {:induction false} RemovedAre(pages: seq<Page>, paths: seq<string>)
    ensures Removed(pages, paths) == Staying(pages, paths)
    decreases |paths|
  {
    if paths == [] {
      AllStay(pages);
    } else {
      RemovedAre(pages, Front(paths));
      RemoveOneMore(pages, Front(paths), Last(paths));
      assert paths == Front(paths) + [Last(paths)];
    }
  }

  /** The pages of a patched plan: those that stay, with the last modification of each path in
      place of the first page of that path, and then the new ones. */
  lemma PagesExactly(p: PlanData, patch: Patch) returns (kept: seq<Page>)
    ensures Exactly(Staying(p.pages, patch.removePages), patch.modifyPages, PageKey, false, kept)
    ensures Patched(p, patch).pages == kept + patch.addPages
  {
    RemovedAre(p.pages, patch.removePages);
    kept := Modified(Staying(p.pages, patch.removePages), patch.modifyPages);
    ModifiedExactly(Staying(p.pages, patch.removePages), patch.modifyPages);
  }

  // ----------------------------------------------------------- new endpoints

  /** The exclusions of the plan, read as one text, say "no auth". */
  predicate RefusesAuth(exclusions: seq<string>) {
    exclusions != [] && exists i :: 0 <= i <= |Join(exclusions, " ")| && "no auth" <= Join(exclusions, " ")[i..]
  }

  lemma {:induction false} AdmittedAre(exclusions: seq<string>, endpoints: seq<Endpoint>)
    ensures !RefusesAuth(exclusions) ==> Admitted(exclusions, endpoints) == endpoints
    ensures RefusesAuth(exclusions) ==>
      forall e :: multiset(Admitted(exclusions, endpoints))[e] ==
                  if e.action == "create_auth" then 0 else multiset(endpoints)[e]
    decreases |endpoints|
  {
    assert ExcludesAuth(exclusions) <==> RefusesAuth(exclusions);
    if endpoints != [] {
      AdmittedAre(exclusions, Front(endpoints));
      assert endpoints == Front(endpoints) + [Last(endpoints)];
    }
  }

  // ------------------------------------------------------------------ design

  function Entry(m: StrMap, key: string): Option<string> {
    if m.Some? && key in m.value then Some(m.value[key]) else None
  }

  /** A design that is updated takes over every entry the update has and keeps its own others;
      typography and intent change when given, the dark mode always. Without a design the
      update is the design. */
  lemma DesignIs(base: Option<Design>, update: Option<Design>, key: string)
    requires !WritesNil(base, update)
    ensures base.None? || update.None? ==> MergeDesign(base, update) == if update.Some? then update else base
    ensures base.Some? && update.Some? ==>
      var d, u, r := base.value, update.value, MergeDesign(base, update);
      && r.Some?
      && Entry(r.value.colors, key) == (if Entry(u.colors, key).Some? then Entry(u.colors, key) else Entry(d.colors, key))
      && Entry(r.value.extended, key)
         == (if Entry(u.extended, key).Some? then Entry(u.extended, key) else Entry(d.extended, key))
      && Entry(r.value.components, key)
         == (if Entry(u.components, key).Some? then Entry(u.components, key) else Entry(d.components, key))
      && r.value.typography == (if u.typography.Some? then u.typography else d.typography)
      && r.value.intent == (if u.intent == "" then d.intent else u.intent)
      && r.value.darkMode == u.darkMode
  {}

  /** The other parts of the plan: the lists grow, and the rest changes when given. */
  lemma RestIs(p: PlanData, patch: Patch)
    ensures
      var r := Patched(p, patch);
      && r.endpoints == PutEndpoints(p.endpoints, patch.modifyEndpoints) + Admitted(p.exclusions, patch.addEndpoints)
      && r.tables == PutTables(p.tables, patch.modifyTables) + patch.addTables
      && r.webhooks == p.webhooks + patch.addWebhooks && r.components == p.components + patch.addComponents
      && r.tasks == p.tasks + patch.addTasks && r.exclusions == p.exclusions && r.appType == p.appType
      && (patch.updateAuthStrategy == "" ==> r.authStrategy == p.authStrategy)
      && (patch.updateAuthStrategy != "" ==> r.authStrategy == patch.updateAuthStrategy)
      && (patch.updateLayout == None ==> r.layout == p.layout)
      && (patch.updateLayout != None ==> r.layout == patch.updateLayout)
      && r.design == MergeDesign(p.design, patch.updateDesign)
  {}
}
