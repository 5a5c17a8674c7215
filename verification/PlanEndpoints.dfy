/** brain/stages.go: adding the CRUD endpoints that the plan's pages refer to
    but the plan does not declare. */
module PlanEndpoints {
  import opened Text
  import opened PlanModel
  import opened PlanPatch

  const CRUD_METHODS := {"GET", "POST", "PUT", "DELETE"}
  const SUB_ROUTES := {"chat", "complete", "stream", "upload", "ws", "rooms"}

  /** strings.ToUpper as far as it can produce a letter of a CRUD method: the long s also
      has a capital S. */
  function Upper(c: char): char {
    if 'a' <= c <= 'z' then (c as int - 32) as char else if c == '\U{17F}' then 'S' else c
  }

  function ToUpper(s: string): string { if s == "" then "" else [Upper(s[0])] + ToUpper(s[1..]) }

  predicate IsQuery(c: char) { c == '?' }
  predicate IsSlash(c: char) { c == '/' }

  function TrimPrefix(s: string, prefix: string): string {
    if prefix <= s then s[|prefix|..] else s
  }

  predicate NameChar(c: char) { !IsSpace(c) && c != '/' && c != '?' }

  lemma FirstField(word: string, rest: string)
    requires word != "" && (forall i :: 0 <= i < |word| ==> !IsSpace(word[i]))
    requires rest != "" ==> IsSpace(rest[0])
    ensures Fields(word + rest) == [word] + Fields(rest)
  {
    assert TrimLeft(word + rest, IsSpace) == word + rest;
    UntilStops(word, rest, IsSpace);
    assert (word + rest)[|word|..] == rest;
  }

  lemma SpaceBefore(gap: string, rest: string)
    requires |gap| == 1 && IsSpace(gap[0])
    ensures Fields(gap + rest) == Fields(rest)
  {
    assert (gap + rest)[1..] == rest;
    assert TrimLeft(gap + rest, IsSpace) == TrimLeft(rest, IsSpace);
  }

  lemma OneField(word: string)
    requires word != "" && (forall i :: 0 <= i < |word| ==> !IsSpace(word[i]))
    ensures Fields(word) == [word]
  {
    FirstField(word, "");
    assert word + "" == word;
  }

  /** A verb and an address separated by a space are the two fields. */
  lemma TwoFields(verb: string, gap: string, url: string)
    requires verb != "" && (forall i :: 0 <= i < |verb| ==> !IsSpace(verb[i]))
    requires |gap| == 1 && IsSpace(gap[0])
    requires url != "" && (forall i :: 0 <= i < |url| ==> !IsSpace(url[i]))
    ensures Fields(verb + (gap + url)) == [verb, url]
  {
    FirstField(verb, gap + url);
    SpaceBefore(gap, url);
    OneField(url);
  }

  function ResourceOf(url: string): string {
    var path := TrimPrefix(url, "/api/");
    var base := Until(path, IsSlash);
    if base in SUB_ROUTES then ""
    else if |base| < |path| && path[|base| + 1..] in SUB_ROUTES then ""
    else base
  }

  /** The words that mark an address as something else than a resource. */
  predicate IsSubRoute(word: string) { word in {"chat", "complete", "stream", "upload", "ws", "rooms"} }

  lemma ResourceUnderApi(name: string, tail: string)
    requires forall i :: 0 <= i < |name| ==> NameChar(name[i])
    requires tail == "" || tail[0] == '/'
    ensures ResourceOf("/api/" + (name + tail)) ==
            if IsSubRoute(name) || (tail != "" && IsSubRoute(tail[1..])) then "" else name
  {
    var url := "/api/" + (name + tail);
    assert "/api/" <= url && url[5..] == name + tail;
    UntilStops(name, tail, IsSlash);
    assert |name| < |name + tail| ==> (name + tail)[|name| + 1..] == tail[1..];
  }

  /** The resource a reference like "GET /api/posts/7?x=1" is about; empty when it is not
      a CRUD reference. */
  function ExtractCRUDPath(ref: string): string {
    FromFields(Fields(Until(ref, IsQuery)))
  }

  function FromFields(parts: seq<string>): string {
    if |parts| < 2 || ToUpper(parts[0]) !in CRUD_METHODS then "" else ResourceOf(parts[1])
  }

  /** Cutting a reference at its query. */
  lemma QueryIsDropped(verb: string, url: string, query: string)
    requires forall i :: 0 <= i < |verb| ==> !IsQuery(verb[i])
    requires forall i :: 0 <= i < |url| ==> !IsQuery(url[i])
    requires query == "" || IsQuery(query[0])
    ensures Until(verb + (" " + url) + query, IsQuery) == verb + (" " + url)
  {
    var word := verb + (" " + url);
    forall i | 0 <= i < |word| ensures !IsQuery(word[i]) {
      assert word[i] == if i < |verb| then verb[i] else if i == |verb| then ' ' else url[i - |verb| - 1];
    }
    UntilStops(word, query, IsQuery);
  }

  predicate UrlChar(c: char) { !IsSpace(c) && c != '?' }

  lemma ReferenceFields(verb: string, url: string, query: string)
    requires verb != "" && forall i :: 0 <= i < |verb| ==> UrlChar(verb[i])
    requires url != "" && forall i :: 0 <= i < |url| ==> UrlChar(url[i])
    requires query == "" || query[0] == '?'
    ensures ExtractCRUDPath(verb + (" " + url) + query) == FromFields([verb, url])
  {
    QueryIsDropped(verb, url, query);
    TwoFields(verb, " ", url);
  }

  /** References written the usual way, a method, the resource under /api/, and optionally a
      longer path and a query: they lead to the resource they name, unless the method is
      another or the address is that of a sub-route, by its first word or by all the rest. */
  lemma ReferenceNamesItsResource(verb: string, name: string, tail: string, query: string, ref: string)
    requires verb != "" && forall i :: 0 <= i < |verb| ==> UrlChar(verb[i])
    requires forall i :: 0 <= i < |name| ==> NameChar(name[i])
    requires forall i :: 0 <= i < |tail| ==> UrlChar(tail[i])
    requires tail == "" || tail[0] == '/'
    requires query == "" || query[0] == '?'
    requires ref == verb + (" " + ("/api/" + (name + tail))) + query
    ensures
      var resource := ToUpper(verb) in {"GET", "POST", "PUT", "DELETE"} && !IsSubRoute(name) &&
                      (tail == "" || !IsSubRoute(tail[1..]));
      ExtractCRUDPath(ref) == if resource then name else ""
  {
    ResourceField(verb, name, tail);
    UrlChars(name, tail);
    ReferenceFields(verb, "/api/" + (name + tail), query);
  }

  lemma ResourceField(verb: string, name: string, tail: string)
    requires forall i :: 0 <= i < |name| ==> NameChar(name[i])
    requires tail == "" || tail[0] == '/'
    ensures
      var resource := ToUpper(verb) in {"GET", "POST", "PUT", "DELETE"} && !IsSubRoute(name) &&
                      (tail == "" || !IsSubRoute(tail[1..]));
      FromFields([verb, "/api/" + (name + tail)]) == if resource then name else ""
  {
    ResourceUnderApi(name, tail);
  }

  lemma UrlChars(name: string, tail: string)
    requires forall i :: 0 <= i < |name| ==> NameChar(name[i])
    requires forall i :: 0 <= i < |tail| ==> UrlChar(tail[i])
    ensures forall i :: 0 <= i < |"/api/" + (name + tail)| ==> UrlChar(("/api/" + (name + tail))[i])
  {
    var all := name + tail;
    assert forall i :: 0 <= i < |all| ==> UrlChar(all[i]);
    assert forall i :: 0 <= i < 5 ==> UrlChar("/api/"[i]);
  }

  // ------------------------------------------------ what the pages refer to

  // The search does not depend on how a path is extracted from a reference: `extract`
  // stands for ExtractCRUDPath until the final method.
  type Extractor = string -> string

  /** The paths of a list of references, an empty string for every other reference. */
  function PathsOf(refs: seq<string>, extract: Extractor): seq<string> {
    if refs == [] then [] else PathsOf(Front(refs), extract) + [extract(Last(refs))]
  }

  function SectionPaths(sections: seq<Section>, extract: Extractor): seq<string> {
    if sections == [] then [] else SectionPaths(Front(sections), extract) + PathsOf(Last(sections).endpoints, extract)
  }

  /** The CRUD paths of all pages, each page's own references before those of its sections. */
  function PagePaths(pages: seq<Page>, extract: Extractor): seq<string> {
    if pages == [] then []
    else
      var own := PathsOf(Last(pages).endpoints, extract) + SectionPaths(Last(pages).sections, extract);
      PagePaths(Front(pages), extract) + own
  }

  predicate HasTable(tables: seq<Table>, name: string) {
    exists i :: 0 <= i < |tables| && tables[i].name == name
  }

  predicate HasApi(endpoints: seq<Endpoint>, path: string) {
    exists i :: 0 <= i < |endpoints| && endpoints[i].action == "create_api" && endpoints[i].path == path
  }

  predicate NeedsApi(p: PlanData, path: string) {
    path != "" && HasTable(p.tables, path) && !HasApi(p.endpoints, path)
  }

  /** Those of the paths that name a table without a create_api endpoint. */
  function Needed(p: PlanData, paths: seq<string>): set<string> {
    set path | path in paths && NeedsApi(p, path)
  }

  lemma NeededConcat(p: PlanData, a: seq<string>, b: seq<string>)
    ensures Needed(p, a + b) == Needed(p, a) + Needed(p, b)
  {}

  function Injection(path: string): Endpoint { Endpoint("create_api", path, path, "") }

  function Injections(paths: seq<string>): seq<Endpoint> {
    if paths == [] then [] else Injections(Front(paths)) + [Injection(Last(paths))]
  }

  /** The plan after injecting endpoints for the given paths. */
  function Injected(p: PlanData, paths: seq<string>): PlanData {
    p.(endpoints := p.endpoints + Injections(paths))
  }

  ghost predicate Lists(paths: seq<string>, elements: set<string>) {
    Distinct(paths) && forall x :: x in paths <==> x in elements
  }

  method NeededAmong(ghost p: PlanData, refs: seq<string>, tableNames: set<string>, existing: set<string>,
                     extract: Extractor)
    returns (needed: set<string>)
    requires forall path :: path in tableNames <==> HasTable(p.tables, path)
    requires forall path :: path in existing <==> HasApi(p.endpoints, path)
    ensures needed == Needed(p, PathsOf(refs, extract))
  {
    needed := {};
    for i := 0 to |refs|
      invariant needed == Needed(p, PathsOf(refs[..i], extract))
    {
      assert Front(refs[..i + 1]) == refs[..i];
      var path := extract(refs[i]);
      NeededConcat(p, PathsOf(refs[..i], extract), [path]);
      if path == "" {
        continue;
      }
      if path in tableNames && path !in existing {
        needed := needed + {path};
      }
    }
    assert refs[..|refs|] == refs;
  }

  method NeededInSections(ghost p: PlanData, sections: seq<Section>, tableNames: set<string>, existing: set<string>,
                          extract: Extractor)
    returns (needed: set<string>)
    requires forall path :: path in tableNames <==> HasTable(p.tables, path)
    requires forall path :: path in existing <==> HasApi(p.endpoints, path)
    ensures needed == Needed(p, SectionPaths(sections, extract))
  {
    needed := {};
    for k := 0 to |sections|
      invariant needed == Needed(p, SectionPaths(sections[..k], extract))
    {
      assert Front(sections[..k + 1]) == sections[..k];
      var more := NeededAmong(p, sections[k].endpoints, tableNames, existing, extract);
      NeededConcat(p, SectionPaths(sections[..k], extract), PathsOf(sections[k].endpoints, extract));
      needed := needed + more;
    }
    assert sections[..|sections|] == sections;
  }

  method CollectNeeded(p: PlanData, extract: Extractor) returns (needed: set<string>)
    ensures needed == Needed(p, PagePaths(p.pages, extract))
  {
    var tableNames := set i | 0 <= i < |p.tables| :: p.tables[i].name;
    var existing := set i | 0 <= i < |p.endpoints| && p.endpoints[i].action == "create_api" :: p.endpoints[i].path;
    needed := {};
    for i := 0 to |p.pages|
      invariant needed == Needed(p, PagePaths(p.pages[..i], extract))
    {
      assert Front(p.pages[..i + 1]) == p.pages[..i];
      var own := NeededAmong(p, p.pages[i].endpoints, tableNames, existing, extract);
      var inSections := NeededInSections(p, p.pages[i].sections, tableNames, existing, extract);
      NeededConcat(p, PathsOf(p.pages[i].endpoints, extract), SectionPaths(p.pages[i].sections, extract));
      NeededConcat(p, PagePaths(p.pages[..i], extract),
                   PathsOf(p.pages[i].endpoints, extract) + SectionPaths(p.pages[i].sections, extract));
      needed := needed + (own + inSections);
    }
    assert p.pages[..|p.pages|] == p.pages;
  }

  lemma ListsSnoc(paths: seq<string>, done: set<string>, path: string)
    requires Lists(paths, done) && path !in done
    ensures Lists(paths + [path], done + {path})
    ensures Injections(paths + [path]) == Injections(paths) + [Injection(path)]
  {
    DistinctSnoc(paths, path);
    assert Front(paths + [path]) == paths;
  }

  method InjectAll(plan: Plan, needed: set<string>) returns (injected: seq<string>)
    modifies plan`endpoints
    ensures Lists(injected, needed)
    ensures plan.endpoints == old(plan.endpoints) + Injections(injected)
  {
    injected := [];
    var left := needed;
    ghost var done := {};
    while left != {}
      invariant done + left == needed && done !! left
      invariant Lists(injected, done)
      invariant plan.endpoints == old(plan.endpoints) + Injections(injected)
      decreases left
    {
      var path :| path in left;
      left := left - {path};
      ListsSnoc(injected, done, path);
      plan.endpoints := plan.endpoints + [Injection(path)];
      injected := injected + [path];
      done := done + {path};
    }
    assert done == needed;
  }

  /** The set of needed paths is iterated in no particular order, so the order of the
      injected endpoints is not determined; everything else is. */
  method NormalizePlanEndpoints(plan: Plan) returns (injected: seq<string>)
    modifies plan`endpoints
    ensures Lists(injected, Needed(old(plan.Data()), PagePaths(old(plan.pages), ExtractCRUDPath)))
    ensures plan.Data() == Injected(old(plan.Data()), injected)
  {
    var needed := CollectNeeded(plan.Data(), ExtractCRUDPath);
    injected := InjectAll(plan, needed);
  }

  // ------------------------------------------------------------- properties

  ghost predicate RefersTo(refs: seq<string>, path: string, extract: Extractor) {
    exists k :: 0 <= k < |refs| && extract(refs[k]) == path
  }

  ghost predicate SectionsReferTo(sections: seq<Section>, path: string, extract: Extractor) {
    exists j :: 0 <= j < |sections| && RefersTo(sections[j].endpoints, path, extract)
  }

  /** Some page, or some section of a page, has a reference with this CRUD path. */
  ghost predicate PagesReferTo(pages: seq<Page>, path: string, extract: Extractor) {
    exists i :: 0 <= i < |pages| && (RefersTo(pages[i].endpoints, path, extract) ||
                                     SectionsReferTo(pages[i].sections, path, extract))
  }

  lemma {:induction false} PathsOfIff(refs: seq<string>, path: string, extract: Extractor)
    ensures path in PathsOf(refs, extract) <==> RefersTo(refs, path, extract)
    decreases |refs|
  {
    if refs != [] {
      PathsOfIff(Front(refs), path, extract);
      if RefersTo(refs, path, extract) {
        var k :| 0 <= k < |refs| && extract(refs[k]) == path;
        assert k < |refs| - 1 ==> Front(refs)[k] == refs[k];
      }
      if RefersTo(Front(refs), path, extract) {
        var k :| 0 <= k < |Front(refs)| && extract(Front(refs)[k]) == path;
        assert refs[k] == Front(refs)[k];
      }
      assert refs[|refs| - 1] == Last(refs);
    }
  }

  lemma {:induction false} SectionPathsIff(sections: seq<Section>, path: string, extract: Extractor)
    ensures path in SectionPaths(sections, extract) <==> SectionsReferTo(sections, path, extract)
    decreases |sections|
  {
    if sections != [] {
      SectionPathsIff(Front(sections), path, extract);
      PathsOfIff(Last(sections).endpoints, path, extract);
      if SectionsReferTo(Front(sections), path, extract) {
        var j :| 0 <= j < |Front(sections)| && RefersTo(Front(sections)[j].endpoints, path, extract);
        assert sections[j] == Front(sections)[j];
      }
      assert sections[|sections| - 1] == Last(sections);
      if SectionsReferTo(sections, path, extract) {
        var j :| 0 <= j < |sections| && RefersTo(sections[j].endpoints, path, extract);
        assert j < |sections| - 1 ==> Front(sections)[j] == sections[j];
      }
    }
  }

  lemma {:induction false} PagePathsIff(pages: seq<Page>, path: string, extract: Extractor)
    ensures path in PagePaths(pages, extract) <==> PagesReferTo(pages, path, extract)
    decreases |pages|
  {
    if pages != [] {
      PagePathsIff(Front(pages), path, extract);
      PathsOfIff(Last(pages).endpoints, path, extract);
      SectionPathsIff(Last(pages).sections, path, extract);
      if PagesReferTo(Front(pages), path, extract) {
        var i :| 0 <= i < |Front(pages)| &&
                 (RefersTo(Front(pages)[i].endpoints, path, extract) ||
                  SectionsReferTo(Front(pages)[i].sections, path, extract));
        assert pages[i] == Front(pages)[i];
      }
      assert pages[|pages| - 1] == Last(pages);
      if PagesReferTo(pages, path, extract) {
        var i :| 0 <= i < |pages| && (RefersTo(pages[i].endpoints, path, extract) ||
                                      SectionsReferTo(pages[i].sections, path, extract));
        assert i < |pages| - 1 ==> Front(pages)[i] == pages[i];
      }
    }
  }

  lemma {:induction false} InjectionsAt(paths: seq<string>)
    ensures |Injections(paths)| == |paths|
    ensures forall i :: 0 <= i < |paths| ==> Injections(paths)[i] == Injection(paths[i])
    decreases |paths|
  {
    if paths != [] {
      InjectionsAt(Front(paths));
    }
  }

  /** The create_api paths afterwards are those before and the injected ones. */
  lemma ApisAfter(p: PlanData, paths: seq<string>, path: string)
    ensures HasApi(Injected(p, paths).endpoints, path) <==> HasApi(p.endpoints, path) || path in paths
  {
    InjectionsAt(paths);
    var all := Injected(p, paths).endpoints;
    if HasApi(p.endpoints, path) {
      var i :| 0 <= i < |p.endpoints| && p.endpoints[i].action == "create_api" && p.endpoints[i].path == path;
      assert all[i] == p.endpoints[i];
    }
    if path in paths {
      var i :| 0 <= i < |paths| && paths[i] == path;
      assert all[|p.endpoints| + i] == Injection(path);
    }
    if HasApi(all, path) {
      var i :| 0 <= i < |all| && all[i].action == "create_api" && all[i].path == path;
      if i >= |p.endpoints| {
        assert all[i] == Injection(paths[i - |p.endpoints|]);
      }
    }
  }

  /** A path is injected exactly when some page or section refers to it, it names a table,
      and the plan had no create_api endpoint for it. */
  lemma InjectedExactlyTheNeeded(p: PlanData, injected: seq<string>, path: string, extract: Extractor)
    requires Lists(injected, Needed(p, PagePaths(p.pages, extract)))
    ensures path in injected <==> PagesReferTo(p.pages, path, extract) && NeedsApi(p, path)
  {
    PagePathsIff(p.pages, path, extract);
  }

  /** Behind the old endpoints stands one for each injected path, with the table of that name. */
  lemma InjectedEndpointsAre(p: PlanData, paths: seq<string>, k: nat)
    requires k < |p.endpoints| + |paths|
    ensures
      var after := Injected(p, paths);
      && |after.endpoints| == |p.endpoints| + |paths| && after == p.(endpoints := after.endpoints)
      && after.endpoints[k] ==
         if k < |p.endpoints| then p.endpoints[k]
         else Endpoint("create_api", paths[k - |p.endpoints|], paths[k - |p.endpoints|], "")
  {
    InjectionsAt(paths);
  }

  lemma EmptyOrNot(s: seq<string>)
    ensures s == [] || exists x :: x in s
  {
    if s != [] {
      assert s[0] in s;
    }
  }

  /** Every page or section reference to a table's CRUD path now has its endpoint; the old
      endpoints are an unchanged prefix; a second normalization injects nothing. */
  lemma NormalizationIsComplete(p: PlanData, injected: seq<string>, path: string, again: seq<string>,
                                extract: Extractor)
    requires Lists(injected, Needed(p, PagePaths(p.pages, extract)))
    requires Lists(again, Needed(Injected(p, injected), PagePaths(p.pages, extract)))
    ensures p.endpoints <= Injected(p, injected).endpoints
    ensures PagesReferTo(p.pages, path, extract) && path != "" && HasTable(p.tables, path) ==>
              HasApi(Injected(p, injected).endpoints, path)
    ensures again == []
  {
    PagePathsIff(p.pages, path, extract);
    ApisAfter(p, injected, path);
    forall other ensures other !in again {
      ApisAfter(p, injected, other);
    }
    EmptyOrNot(again);
  }

  lemma {:induction false} InjectionsAddNoErrors(endpoints: seq<Endpoint>, paths: seq<string>)
    requires "" !in paths
    ensures EndpointErrors(endpoints + Injections(paths)) == EndpointErrors(endpoints)
    decreases |paths|
  {
    if paths == [] {
      assert endpoints + Injections(paths) == endpoints;
    } else {
      var all := endpoints + Injections(paths);
      assert Front(all) == endpoints + Injections(Front(paths));
      assert forall path :: path in Front(paths) ==> path in paths;
      InjectionsAddNoErrors(endpoints, Front(paths));
      assert Last(all) == Injection(Last(paths)) && Last(paths) in paths;
    }
  }

  /** The error report of the plan is the same before and after. */
  lemma NormalizationKeepsErrors(p: PlanData, injected: seq<string>, extract: Extractor)
    requires Lists(injected, Needed(p, PagePaths(p.pages, extract)))
    ensures Errors(Injected(p, injected)) == Errors(p)
  {
    InjectionsAddNoErrors(p.endpoints, injected);
  }
}
