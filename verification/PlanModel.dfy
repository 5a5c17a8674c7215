/** brain/plan.go: the build plan and its structural validation. Fields that no
    modelled code inspects are carried in `detail`. */
module PlanModel {
  import opened Wrappers
  import opened Text

  datatype Section = Section(endpoints: seq<string>, detail: string)
  datatype Page = Page(path: string, endpoints: seq<string>, sections: seq<Section>, detail: string)
  datatype Endpoint = Endpoint(action: string, path: string, tableName: string, detail: string)
  datatype Column = Column(name: string, detail: string)
  datatype Table = Table(name: string, columns: seq<Column>, detail: string)
  datatype Layout = Layout(header: string, footer: string, detail: string)

  /** A Go map that may be nil. */
  type StrMap = Option<map<string, string>>

  datatype Design = Design(
    colors: StrMap, extended: StrMap, components: StrMap,
    typography: Option<string>, intent: string, darkMode: bool)

  datatype PlanData = PlanData(
    appType: string, authStrategy: string,
    design: Option<Design>, layout: Option<Layout>,
    tables: seq<Table>, endpoints: seq<Endpoint>, pages: seq<Page>,
    webhooks: seq<string>, components: seq<string>, tasks: seq<string>, exclusions: seq<string>)

  datatype PlanError =
    | AppTypeMissing
    | NoPages
    | DuplicatePage(path: string)
    | NoHomepage
    | NoColors
    | NoPrimary
    | NoBackground
    | NoLayout
    | BadHeader
    | BadFooter
    | BadAction(index: nat)
    | NoPath(index: nat)
    | NoTableName(index: nat)
    | DuplicateColumn(table: string, column: string)
    | OnlySystemColumns(table: string)

  const VALID_ACTIONS :=
    {"create_api", "create_auth", "create_websocket", "create_stream", "create_upload", "create_llm"}
  const CHROME := {"full", "minimal", "none"}
  const SYSTEM_COLUMNS := {"id", "created_at", "updated_at"}

  function Paths(pages: seq<Page>): seq<string> {
    if pages == [] then [] else [pages[0].path] + Paths(pages[1..])
  }

  predicate Distinct<T(==)>(s: seq<T>) {
    forall i, j :: 0 <= i < j < |s| ==> s[i] != s[j]
  }

  /** m[key] in Go: the empty string for a missing key or a nil map. */
  function Lookup(m: StrMap, key: string): string {
    if m.Some? && key in m.value then m.value[key] else ""
  }

  // ------------------------------------------------- validity, stated outright

  predicate ValidPages(pages: seq<Page>) {
    Distinct(Paths(pages)) && "/" in Paths(pages)
  }

  predicate ValidDesign(d: Design) { Lookup(d.colors, "primary") != "" && Lookup(d.colors, "bg") != "" }

  predicate ValidLayout(l: Layout) {
    (l.header == "" || l.header in CHROME) && (l.footer == "" || l.footer in CHROME)
  }

  predicate ValidEndpoint(e: Endpoint) { e.action in VALID_ACTIONS && e.path != "" }

  function Names(columns: seq<Column>): seq<string> {
    if columns == [] then [] else [columns[0].name] + Names(columns[1..])
  }

  predicate ValidTable(t: Table) {
    && t.name != ""
    && Distinct(Names(t.columns))
    && (t.columns == [] || exists i :: 0 <= i < |t.columns| && t.columns[i].name !in SYSTEM_COLUMNS)
  }

  predicate ValidEndpoints(endpoints: seq<Endpoint>) {
    forall i :: 0 <= i < |endpoints| ==> ValidEndpoint(endpoints[i])
  }

  predicate ValidTables(tables: seq<Table>) { forall i :: 0 <= i < |tables| ==> ValidTable(tables[i]) }

  predicate Valid(p: PlanData) {
    && p.appType != ""
    && ValidPages(p.pages)
    && (p.design.Some? ==> ValidDesign(p.design.value))
    && p.layout.Some? && ValidLayout(p.layout.value)
    && ValidEndpoints(p.endpoints)
    && ValidTables(p.tables)
  }

  // ----------------------------------------------- the errors, in report order

  function DuplicateErrors(pages: seq<Page>): seq<PlanError> {
    if pages == [] then []
    else
      var path := Last(pages).path;
      DuplicateErrors(Front(pages)) + if path in Paths(Front(pages)) then [DuplicatePage(path)] else []
  }

  function PageErrors(pages: seq<Page>): seq<PlanError> {
    DuplicateErrors(pages) + if "/" !in Paths(pages) then [NoHomepage] else []
  }

  function DesignErrors(design: Option<Design>): seq<PlanError> {
    if design.None? then []
    else
      var colors := design.value.colors;
      if colors.None? || colors.value == map[] then [NoColors]
      else
        (if Lookup(colors, "primary") == "" then [NoPrimary] else []) +
        (if Lookup(colors, "bg") == "" then [NoBackground] else [])
  }

  function LayoutErrors(layout: Option<Layout>): seq<PlanError> {
    if layout.None? then [NoLayout]
    else
      (if layout.value.header != "" && layout.value.header !in CHROME then [BadHeader] else []) +
      (if layout.value.footer != "" && layout.value.footer !in CHROME then [BadFooter] else [])
  }

  function EndpointErrors(endpoints: seq<Endpoint>): seq<PlanError> {
    if endpoints == [] then []
    else
      var e, i := Last(endpoints), |endpoints| - 1;
      EndpointErrors(Front(endpoints)) +
      (if e.action !in VALID_ACTIONS then [BadAction(i)] else []) +
      (if e.path == "" then [NoPath(i)] else [])
  }

  function ColumnErrors(table: string, columns: seq<Column>): seq<PlanError> {
    if columns == [] then []
    else
      var name := Last(columns).name;
      ColumnErrors(table, Front(columns)) +
      if name in Names(Front(columns)) then [DuplicateColumn(table, name)] else []
  }

  function NonSystem(columns: seq<Column>): nat {
    if columns == [] then 0
    else NonSystem(Front(columns)) + if Last(columns).name !in SYSTEM_COLUMNS then 1 else 0
  }

  function OneTableErrors(t: Table, index: nat): seq<PlanError> {
    if t.name == "" then [NoTableName(index)]
    else
      ColumnErrors(t.name, t.columns) +
      if NonSystem(t.columns) == 0 && t.columns != [] then [OnlySystemColumns(t.name)] else []
  }

  function TableErrors(tables: seq<Table>): seq<PlanError> {
    if tables == [] then []
    else TableErrors(Front(tables)) + OneTableErrors(Last(tables), |tables| - 1)
  }

  function Errors(p: PlanData): seq<PlanError> {
    (if p.appType == "" then [AppTypeMissing] else []) +
    (if |p.pages| < 1 then [NoPages] else []) +
    PageErrors(p.pages) +
    DesignErrors(p.design) +
    LayoutErrors(p.layout) +
    EndpointErrors(p.endpoints) +
    TableErrors(p.tables)
  }

  // ------------------------------------------------------ helpers on sequences

  lemma {:induction false} PathsAt(pages: seq<Page>)
    ensures |Paths(pages)| == |pages|
    ensures forall i :: 0 <= i < |pages| ==> Paths(pages)[i] == pages[i].path
    decreases |pages|
  {
    if pages != [] {
      PathsAt(pages[1..]);
    }
  }

  lemma {:induction false} NamesAt(columns: seq<Column>)
    ensures |Names(columns)| == |columns|
    ensures forall i :: 0 <= i < |columns| ==> Names(columns)[i] == columns[i].name
    decreases |columns|
  {
    if columns != [] {
      NamesAt(columns[1..]);
    }
  }

  lemma PathsFront(pages: seq<Page>)
    requires pages != []
    ensures Paths(pages) == Paths(Front(pages)) + [Last(pages).path]
  {
    PathsAt(pages);
    PathsAt(Front(pages));
  }

  lemma NamesFront(columns: seq<Column>)
    requires columns != []
    ensures Names(columns) == Names(Front(columns)) + [Last(columns).name]
  {
    NamesAt(columns);
    NamesAt(Front(columns));
  }

  lemma DistinctSnoc<T>(s: seq<T>, x: T)
    ensures Distinct(s + [x]) <==> Distinct(s) && x !in s
  {
    if Distinct(s + [x]) {
      forall i, j | 0 <= i < j < |s| ensures s[i] != s[j] {
        assert (s + [x])[i] != (s + [x])[j];
      }
      forall i | 0 <= i < |s| ensures s[i] != x {
        assert (s + [x])[i] != (s + [x])[|s|];
      }
    }
  }

  // ------------------------------------------- no errors means valid, and back

  lemma {:induction false} DuplicateErrorsIff(pages: seq<Page>)
    ensures DuplicateErrors(pages) == [] <==> Distinct(Paths(pages))
    decreases |pages|
  {
    if pages != [] {
      DuplicateErrorsIff(Front(pages));
      PathsFront(pages);
      DistinctSnoc(Paths(Front(pages)), Last(pages).path);
    }
  }

  lemma {:induction false} ColumnErrorsIff(table: string, columns: seq<Column>)
    ensures ColumnErrors(table, columns) == [] <==> Distinct(Names(columns))
    decreases |columns|
  {
    if columns != [] {
      ColumnErrorsIff(table, Front(columns));
      NamesFront(columns);
      DistinctSnoc(Names(Front(columns)), Last(columns).name);
    }
  }

  lemma {:induction false} NonSystemIff(columns: seq<Column>)
    ensures NonSystem(columns) == 0 <==> forall i :: 0 <= i < |columns| ==> columns[i].name in SYSTEM_COLUMNS
    decreases |columns|
  {
    if columns != [] {
      NonSystemIff(Front(columns));
    }
  }

  lemma {:induction false} EndpointErrorsIff(endpoints: seq<Endpoint>)
    ensures EndpointErrors(endpoints) == [] <==> ValidEndpoints(endpoints)
    decreases |endpoints|
  {
    if endpoints != [] {
      EndpointErrorsIff(Front(endpoints));
      assert ValidEndpoints(endpoints) <==> ValidEndpoints(Front(endpoints)) && ValidEndpoint(Last(endpoints));
    }
  }

  lemma OneTableErrorsIff(t: Table, index: nat)
    ensures OneTableErrors(t, index) == [] <==> ValidTable(t)
  {
    ColumnErrorsIff(t.name, t.columns);
    NonSystemIff(t.columns);
  }

  /** A last table with no fault of its own adds none to the others. */
  lemma ValidTablesSnoc(tables: seq<Table>)
    requires tables != []
    ensures ValidTables(tables) <==> ValidTables(Front(tables)) && ValidTable(Last(tables))
  {
    var n := |tables| - 1;
    assert tables[n] == Last(tables);
    forall i | 0 <= i < n ensures Front(tables)[i] == tables[i] {}
    if ValidTables(Front(tables)) && ValidTable(Last(tables)) {
      forall i | 0 <= i < |tables| ensures ValidTable(tables[i]) {
        if i < n {
          assert ValidTable(Front(tables)[i]);
        }
      }
    }
  }

  lemma {:induction false} TableErrorsIff(tables: seq<Table>)
    ensures TableErrors(tables) == [] <==> ValidTables(tables)
    decreases |tables|
  {
    if tables != [] {
      TableErrorsIff(Front(tables));
      OneTableErrorsIff(Last(tables), |tables| - 1);
      ValidTablesSnoc(tables);
    }
  }

  /** The error list is empty exactly for plans that are valid as stated outright. */
  lemma NoErrorsIffValid(p: PlanData)
    ensures Errors(p) == [] <==> Valid(p)
  {
    DuplicateErrorsIff(p.pages);
    EndpointErrorsIff(p.endpoints);
    TableErrorsIff(p.tables);
  }

  // --------------------------------------------------------------- the method

  method ColumnCheck(table: string, columns: seq<Column>) returns (errs: seq<PlanError>)
    ensures errs == ColumnErrors(table, columns) +
                    if NonSystem(columns) == 0 && columns != [] then [OnlySystemColumns(table)] else []
  {
    errs := [];
    var seen, nonSystem := {}, 0;
    for i := 0 to |columns|
      invariant errs == ColumnErrors(table, columns[..i])
      invariant seen == set name | name in Names(columns[..i])
      invariant nonSystem == NonSystem(columns[..i])
    {
      var name := columns[i].name;
      assert Front(columns[..i + 1]) == columns[..i];
      NamesFront(columns[..i + 1]);
      if name in seen {
        errs := errs + [DuplicateColumn(table, name)];
      }
      seen := seen + {name};
      if name != "id" && name != "created_at" && name != "updated_at" {
        nonSystem := nonSystem + 1;
      }
    }
    assert columns[..|columns|] == columns;
    if nonSystem == 0 && |columns| > 0 {
      errs := errs + [OnlySystemColumns(table)];
    }
  }

  method PageCheck(pages: seq<Page>) returns (errs: seq<PlanError>)
    ensures errs == PageErrors(pages)
  {
    errs := [];
    var paths := {};
    for i := 0 to |pages|
      invariant errs == DuplicateErrors(pages[..i])
      invariant paths == set path | path in Paths(pages[..i])
    {
      assert Front(pages[..i + 1]) == pages[..i];
      PathsFront(pages[..i + 1]);
      if pages[i].path in paths {
        errs := errs + [DuplicatePage(pages[i].path)];
      }
      paths := paths + {pages[i].path};
    }
    assert pages[..|pages|] == pages;
    if "/" !in paths {
      errs := errs + [NoHomepage];
    }
  }

  method EndpointCheck(endpoints: seq<Endpoint>) returns (errs: seq<PlanError>)
    ensures errs == EndpointErrors(endpoints)
  {
    errs := [];
    for i := 0 to |endpoints|
      invariant errs == EndpointErrors(endpoints[..i])
    {
      assert Front(endpoints[..i + 1]) == endpoints[..i];
      if endpoints[i].action !in VALID_ACTIONS {
        errs := errs + [BadAction(i)];
      }
      if endpoints[i].path == "" {
        errs := errs + [NoPath(i)];
      }
    }
    assert endpoints[..|endpoints|] == endpoints;
  }

  method TableCheck(tables: seq<Table>) returns (errs: seq<PlanError>)
    ensures errs == TableErrors(tables)
  {
    errs := [];
    for i := 0 to |tables|
      invariant errs == TableErrors(tables[..i])
    {
      assert Front(tables[..i + 1]) == tables[..i];
      if tables[i].name == "" {
        errs := errs + [NoTableName(i)];
        continue;
      }
      var more := ColumnCheck(tables[i].name, tables[i].columns);
      errs := errs + more;
    }
    assert tables[..|tables|] == tables;
  }

  method ValidatePlan(p: PlanData) returns (errs: seq<PlanError>)
    ensures errs == Errors(p)
    ensures errs == [] <==> Valid(p)
  {
    errs := [];
    if p.appType == "" {
      errs := errs + [AppTypeMissing];
    }
    if |p.pages| < 1 {
      errs := errs + [NoPages];
    }
    assert errs == (if p.appType == "" then [AppTypeMissing] else []) + (if |p.pages| < 1 then [NoPages] else []);
    var more := PageCheck(p.pages);
    errs := errs + more;
    errs := errs + DesignErrors(p.design) + LayoutErrors(p.layout);
    more := EndpointCheck(p.endpoints);
    errs := errs + more;
    more := TableCheck(p.tables);
    errs := errs + more;
    NoErrorsIffValid(p);
  }
}
