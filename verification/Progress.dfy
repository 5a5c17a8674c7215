/** brain/progress.go: which plan items the BUILD conversation has created. */
module Progress {
  import opened Text
  import opened PlanModel

  /** The string arguments of a tool call that the tracker looks at; empty when absent. */
  datatype Args = Args(action: string, tableName: string, path: string, kind: string)

  datatype Tracker = Tracker(
    plan: PlanData,
    tables: set<string>, endpoints: set<string>, pages: set<string>,
    seen: nat, nudgeSent: bool, postIters: nat, readOnlyIters: nat, checkpointed: bool)

  function NewTracker(plan: PlanData): Tracker {
    Tracker(plan, {}, {}, {}, 0, false, 0, 0, false)
  }

  function EndpointKey(e: Endpoint): string { e.action + ":" + e.path }

  function TableKeys(plan: PlanData): seq<string> {
    seq(|plan.tables|, i requires 0 <= i < |plan.tables| => plan.tables[i].name)
  }
  function EndpointKeys(plan: PlanData): seq<string> {
    seq(|plan.endpoints|, i requires 0 <= i < |plan.endpoints| => EndpointKey(plan.endpoints[i]))
  }
  function PageKeys(plan: PlanData): seq<string> {
    seq(|plan.pages|, i requires 0 <= i < |plan.pages| => plan.pages[i].path)
  }

  /** The tracker after a successful call. */
  function Tracked(t: Tracker, tool: string, args: Args): Tracker {
    var t := t.(seen := t.seen + 1);
    if tool == "manage_schema" && args.action == "create" && args.tableName != "" then
      t.(tables := t.tables + {args.tableName})
    else if tool == "manage_pages" && (args.action == "save" || args.action == "") && args.path != "" then
      t.(pages := t.pages + {args.path})
    else if tool == "manage_endpoints" && "create_" <= args.action && args.path != "" then
      t.(endpoints := t.endpoints + {args.action + ":" + args.path})
    else t
  }

  /** The counting test the tool loop uses to stop. */
  predicate AllComplete(t: Tracker) {
    |t.tables| >= |t.plan.tables| && |t.endpoints| >= |t.plan.endpoints| && |t.pages| >= |t.plan.pages|
  }

  predicate InfrastructureComplete(t: Tracker) {
    && (|t.plan.tables| == 0 || |t.tables| >= |t.plan.tables|)
    && (|t.plan.endpoints| == 0 || |t.endpoints| >= |t.plan.endpoints|)
    && |t.pages| < |t.plan.pages|
  }

  datatype Item = MissingTable(name: string) | MissingEndpoint(key: string) | MissingPage(path: string)

  function MissingTables(keys: seq<string>, done: set<string>): seq<Item> {
    if keys == [] then []
    else MissingTables(Front(keys), done) + if Last(keys) in done then [] else [MissingTable(Last(keys))]
  }

  function MissingEndpoints(keys: seq<string>, done: set<string>): seq<Item> {
    if keys == [] then []
    else MissingEndpoints(Front(keys), done) + if Last(keys) in done then [] else [MissingEndpoint(Last(keys))]
  }

  function MissingPages(keys: seq<string>, done: set<string>): seq<Item> {
    if keys == [] then []
    else MissingPages(Front(keys), done) + if Last(keys) in done then [] else [MissingPage(Last(keys))]
  }

  /** The plan items not built yet, tables first, then endpoints, then pages. */
  function Remaining(t: Tracker): seq<Item> {
    MissingTables(TableKeys(t.plan), t.tables) +
    MissingEndpoints(EndpointKeys(t.plan), t.endpoints) +
    MissingPages(PageKeys(t.plan), t.pages)
  }

  /** The tracker object of the pipeline worker. */
  class BuildProgressTracker {
    const plan: PlanData
    var tablesDone: set<string>
    var endpointsDone: set<string>
    var pagesDone: set<string>
    var toolCallsSeen: nat
    var nudgeSent: bool
    var postCompletionIters: nat
    var readOnlyGraceIters: nat
    var checkpointed: bool

    function State(): Tracker
      reads this
    {
      Tracker(plan, tablesDone, endpointsDone, pagesDone, toolCallsSeen, nudgeSent,
              postCompletionIters, readOnlyGraceIters, checkpointed)
    }

    constructor (plan: PlanData)
      ensures State() == NewTracker(plan)
    {
      this.plan := plan;
      tablesDone, endpointsDone, pagesDone := {}, {}, {};
      toolCallsSeen, postCompletionIters, readOnlyGraceIters := 0, 0, 0;
      nudgeSent, checkpointed := false, false;
    }

    method TrackToolResult(tool: string, args: Args)
      modifies `tablesDone, `endpointsDone, `pagesDone, `toolCallsSeen
      ensures State() == Tracked(old(State()), tool, args)
    {
      toolCallsSeen := toolCallsSeen + 1;
      if tool == "manage_schema" {
        if args.action == "create" && args.tableName != "" {
          tablesDone := tablesDone + {args.tableName};
        }
      } else if tool == "manage_pages" {
        if (args.action == "save" || args.action == "") && args.path != "" {
          pagesDone := pagesDone + {args.path};
        }
      } else if tool == "manage_endpoints" {
        if "create_" <= args.action && args.path != "" {
          endpointsDone := endpointsDone + {args.action + ":" + args.path};
        }
      }
    }

    method RemainingItems() returns (items: seq<Item>)
      ensures items == Remaining(State())
    {
      var tables: seq<Item>, endpoints: seq<Item>, pages: seq<Item> := [], [], [];
      var keys := TableKeys(plan);
      for i := 0 to |keys|
        invariant tables == MissingTables(keys[..i], tablesDone)
      {
        assert Front(keys[..i + 1]) == keys[..i];
        if keys[i] !in tablesDone {
          tables := tables + [MissingTable(keys[i])];
        }
      }
      assert keys[..|keys|] == keys;
      keys := EndpointKeys(plan);
      for i := 0 to |keys|
        invariant endpoints == MissingEndpoints(keys[..i], endpointsDone)
      {
        assert Front(keys[..i + 1]) == keys[..i];
        if keys[i] !in endpointsDone {
          endpoints := endpoints + [MissingEndpoint(keys[i])];
        }
      }
      assert keys[..|keys|] == keys;
      keys := PageKeys(plan);
      for i := 0 to |keys|
        invariant pages == MissingPages(keys[..i], pagesDone)
      {
        assert Front(keys[..i + 1]) == keys[..i];
        if keys[i] !in pagesDone {
          pages := pages + [MissingPage(keys[i])];
        }
      }
      assert keys[..|keys|] == keys;
      return tables + endpoints + pages;
    }
  }

  // -------------------------------------------- counting against item by item

  function Elements(s: seq<string>): set<string> { set x | x in s }

  /** A list has as many different elements as positions exactly when it has no repetition. */
  lemma {:induction false} CountDistinct(s: seq<string>)
    ensures |Elements(s)| <= |s|
    ensures |Elements(s)| == |s| <==> Distinct(s)
    decreases |s|
  {
    if s == [] {
      assert Elements(s) == {};
    } else {
      var rest, x := Front(s), Last(s);
      assert s == rest + [x];
      CountDistinct(rest);
      DistinctSnoc(rest, x);
      assert Elements(s) == Elements(rest) + {x};
    }
  }

  lemma SubsetCount(done: set<string>, all: set<string>)
    requires done <= all
    ensures |done| <= |all|
    ensures |done| == |all| ==> done == all
  {
    var rest := all - done;
    assert all == done + rest;
    assert |all| == |done| + |rest|;
  }

  /** How many different keys are not done, how many items are done that are no keys, and how
      often a key is listed again. */
  function Missing(keys: seq<string>, done: set<string>): nat { |Elements(keys) - done| }

  function Unplanned(keys: seq<string>, done: set<string>): nat { |done - Elements(keys)| }

  function Repeats(keys: seq<string>): nat {
    CountDistinct(keys);
    |keys| - |Elements(keys)|
  }

  /** Enough items are done by count exactly when those outside the plan make up for the keys
      that are missing and for those listed again. */
  lemma EnoughIff(keys: seq<string>, done: set<string>)
    ensures |done| >= |keys| <==> Unplanned(keys, done) >= Missing(keys, done) + Repeats(keys)
  {
    var all := Elements(keys);
    var both := done * all;
    assert done == both + (done - all) && all == both + (all - done);
    assert |done| == |both| + |done - all| && |all| == |both| + |all - done|;
  }

  lemma NoneMissing(keys: seq<string>, done: set<string>)
    ensures Missing(keys, done) == 0 <==> Elements(keys) <= done
    ensures Unplanned(keys, done) == 0 <==> done <= Elements(keys)
    ensures Repeats(keys) == 0 <==> Distinct(keys)
  {
    CountDistinct(keys);
    NoDifference(Elements(keys), done);
    NoDifference(done, Elements(keys));
  }

  lemma NoDifference(a: set<string>, b: set<string>)
    ensures |a - b| == 0 <==> a <= b
  {
    if a <= b {
      assert a - b == {};
    } else {
      var x :| x in a && x !in b;
      assert x in a - b;
    }
  }

  lemma {:induction false} NothingMissing(keys: seq<string>, done: set<string>)
    ensures MissingTables(keys, done) == [] <==> Elements(keys) <= done
    ensures MissingEndpoints(keys, done) == [] <==> Elements(keys) <= done
    ensures MissingPages(keys, done) == [] <==> Elements(keys) <= done
    decreases |keys|
  {
    if keys != [] {
      NothingMissing(Front(keys), done);
      assert keys == Front(keys) + [Last(keys)];
      assert Elements(keys) == Elements(Front(keys)) + {Last(keys)};
    }
  }

  predicate DistinctKeys(plan: PlanData) {
    Distinct(TableKeys(plan)) && Distinct(EndpointKeys(plan)) && Distinct(PageKeys(plan))
  }

  /** Only items of the plan have been built. */
  predicate OnlyPlanned(t: Tracker) {
    && t.tables <= Elements(TableKeys(t.plan))
    && t.endpoints <= Elements(EndpointKeys(t.plan))
    && t.pages <= Elements(PageKeys(t.plan))
  }

  /** Every key of the plan is done. */
  predicate AllKeysDone(t: Tracker) {
    && Elements(TableKeys(t.plan)) <= t.tables
    && Elements(EndpointKeys(t.plan)) <= t.endpoints
    && Elements(PageKeys(t.plan)) <= t.pages
  }

  lemma NothingRemainsIff(t: Tracker)
    ensures Remaining(t) == [] <==> AllKeysDone(t)
  {
    NothingMissing(TableKeys(t.plan), t.tables);
    NothingMissing(EndpointKeys(t.plan), t.endpoints);
    NothingMissing(PageKeys(t.plan), t.pages);
  }

  /** All items of a plan, in the order of the plan. */
  function AllItems(plan: PlanData): seq<Item> {
    seq(|plan.tables|, i requires 0 <= i < |plan.tables| => MissingTable(plan.tables[i].name)) +
    seq(|plan.endpoints|, i requires 0 <= i < |plan.endpoints| =>
      MissingEndpoint(plan.endpoints[i].action + ":" + plan.endpoints[i].path)) +
    seq(|plan.pages|, i requires 0 <= i < |plan.pages| => MissingPage(plan.pages[i].path))
  }

  predicate IsDone(t: Tracker, item: Item) {
    match item
    case MissingTable(name) => name in t.tables
    case MissingEndpoint(key) => key in t.endpoints
    case MissingPage(path) => path in t.pages
  }

  function Undone(t: Tracker, items: seq<Item>): seq<Item> {
    if items == [] then [] else Undone(t, Front(items)) + if IsDone(t, Last(items)) then [] else [Last(items)]
  }

  lemma {:induction false} UndoneConcat(t: Tracker, a: seq<Item>, b: seq<Item>)
    ensures Undone(t, a + b) == Undone(t, a) + Undone(t, b)
    decreases |b|
  {
    if b == [] {
      assert a + b == a;
    } else {
      assert Front(a + b) == a + Front(b);
      UndoneConcat(t, a, Front(b));
    }
  }

  function ItemOf(kind: string -> Item, keys: seq<string>): seq<Item> {
    seq(|keys|, i requires 0 <= i < |keys| => kind(keys[i]))
  }

  lemma {:induction false} MissingAreUndone(t: Tracker, keys: seq<string>)
    ensures MissingTables(keys, t.tables) == Undone(t, ItemOf(key => MissingTable(key), keys))
    ensures MissingEndpoints(keys, t.endpoints) == Undone(t, ItemOf(key => MissingEndpoint(key), keys))
    ensures MissingPages(keys, t.pages) == Undone(t, ItemOf(key => MissingPage(key), keys))
    decreases |keys|
  {
    if keys != [] {
      MissingAreUndone(t, Front(keys));
      assert Front(ItemOf(key => MissingTable(key), keys)) == ItemOf(key => MissingTable(key), Front(keys));
      assert Front(ItemOf(key => MissingEndpoint(key), keys)) == ItemOf(key => MissingEndpoint(key), Front(keys));
      assert Front(ItemOf(key => MissingPage(key), keys)) == ItemOf(key => MissingPage(key), Front(keys));
    }
  }

  /** What remains are the items of the plan that are not done, in the order of the plan. */
  lemma RemainingAreUndone(t: Tracker)
    ensures Remaining(t) == Undone(t, AllItems(t.plan))
  {
    var tables := ItemOf(key => MissingTable(key), TableKeys(t.plan));
    var endpoints := ItemOf(key => MissingEndpoint(key), EndpointKeys(t.plan));
    var pages := ItemOf(key => MissingPage(key), PageKeys(t.plan));
    assert AllItems(t.plan) == tables + endpoints + pages;
    MissingAreUndone(t, TableKeys(t.plan));
    MissingAreUndone(t, EndpointKeys(t.plan));
    MissingAreUndone(t, PageKeys(t.plan));
    UndoneConcat(t, tables, endpoints);
    UndoneConcat(t, tables + endpoints, pages);
  }

  /** For each kind, items outside the plan make up for what is missing or listed again. */
  predicate MadeUp(t: Tracker) {
    var tables, endpoints, pages := TableKeys(t.plan), EndpointKeys(t.plan), PageKeys(t.plan);
    && Unplanned(tables, t.tables) >= Missing(tables, t.tables) + Repeats(tables)
    && Unplanned(endpoints, t.endpoints) >= Missing(endpoints, t.endpoints) + Repeats(endpoints)
    && Unplanned(pages, t.pages) >= Missing(pages, t.pages) + Repeats(pages)
  }

  /** Some plan item of some kind is missing. */
  predicate SomeMissing(t: Tracker) {
    || Missing(TableKeys(t.plan), t.tables) > 0
    || Missing(EndpointKeys(t.plan), t.endpoints) > 0
    || Missing(PageKeys(t.plan), t.pages) > 0
  }

  /** For every tracker: what the counting test says, and what the item list says. */
  lemma TestsMean(t: Tracker)
    ensures AllComplete(t) <==> MadeUp(t)
    ensures Remaining(t) != [] <==> SomeMissing(t)
  {
    EnoughIff(TableKeys(t.plan), t.tables);
    EnoughIff(EndpointKeys(t.plan), t.endpoints);
    EnoughIff(PageKeys(t.plan), t.pages);
    NothingRemainsIff(t);
    NoneMissing(TableKeys(t.plan), t.tables);
    NoneMissing(EndpointKeys(t.plan), t.endpoints);
    NoneMissing(PageKeys(t.plan), t.pages);
  }

  /** For every tracker the two tests differ in exactly two cases: items are missing and made
      up for by others, or nothing is missing and a key listed again is not made up for. With
      only plan items built, the second is left, and only for plans that repeat a key. */
  lemma AllCompleteIffNothingRemains(t: Tracker)
    ensures AllComplete(t) && Remaining(t) != [] <==> SomeMissing(t) && MadeUp(t)
    ensures !AllComplete(t) && Remaining(t) == [] <==> !SomeMissing(t) && !MadeUp(t)
    ensures OnlyPlanned(t) ==> (AllComplete(t) <==> Remaining(t) == [] && DistinctKeys(t.plan))
  {
    TestsMean(t);
    NoneMissing(TableKeys(t.plan), t.tables);
    NoneMissing(EndpointKeys(t.plan), t.endpoints);
    NoneMissing(PageKeys(t.plan), t.pages);
  }

  /** Building an item outside the plan can end the build with a plan item missing. */
  lemma UnplannedItemDefeatsCount(plan: PlanData, t: Tracker)
    requires plan.tables == [] && plan.endpoints == [] && plan.pages == [Page("/", [], [], "")]
    requires t == Tracked(NewTracker(plan), "manage_pages", Args("save", "", "/other", ""))
    ensures AllComplete(t) && Remaining(t) == [MissingPage("/")]
  {
    assert t.pages == {"/other"};
    assert TableKeys(plan) == [] && EndpointKeys(plan) == [] && PageKeys(plan) == ["/"];
    assert MissingTables([], t.tables) == [] && MissingEndpoints([], t.endpoints) == [];
    assert Front(["/"]) == [] && MissingPages([], t.pages) == [];
    assert MissingPages(["/"], t.pages) == [MissingPage("/")];
  }

  /** The same plan with at least the same items done. */
  predicate Grown(t: Tracker, u: Tracker) {
    u.plan == t.plan && t.tables <= u.tables && t.endpoints <= u.endpoints && t.pages <= u.pages
  }

  lemma TrackingGrows(t: Tracker, tool: string, args: Args)
    ensures Grown(t, Tracked(t, tool, args))
  {}

  /** Completion is never undone, and a built item never becomes missing again. */
  lemma CompletionIsStable(t: Tracker, u: Tracker)
    requires Grown(t, u)
    ensures AllComplete(t) ==> AllComplete(u)
    ensures Remaining(t) == [] ==> Remaining(u) == []
  {
    SubsetCount(t.tables, u.tables);
    SubsetCount(t.endpoints, u.endpoints);
    SubsetCount(t.pages, u.pages);
    NothingRemainsIff(t);
    NothingRemainsIff(u);
  }
}
