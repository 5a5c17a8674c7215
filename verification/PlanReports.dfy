/** brain/plan.go: which errors the validator reports, one by one, for every plan. */
module PlanReports {
  import opened Wrappers
  import opened Text
  import opened PlanModel

  /** Two pages, or two columns, with this name. */
  predicate PageTwice(pages: seq<Page>, path: string) {
    exists i, j :: 0 <= i < j < |pages| && pages[i].path == path && pages[j].path == path
  }

  predicate ColumnTwice(columns: seq<Column>, name: string) {
    exists i, j :: 0 <= i < j < |columns| && columns[i].name == name && columns[j].name == name
  }

  predicate HasColors(p: PlanData) {
    p.design.Some? && p.design.value.colors.Some? && p.design.value.colors.value != map[]
  }

  predicate OnlySystem(columns: seq<Column>) {
    columns != [] && forall i :: 0 <= i < |columns| ==> columns[i].name in {"id", "created_at", "updated_at"}
  }

  /** What each error says about the plan. */
  predicate Applies(p: PlanData, e: PlanError) {
    match e
    case AppTypeMissing => p.appType == ""
    case NoPages => p.pages == []
    case DuplicatePage(path) => PageTwice(p.pages, path)
    case NoHomepage => forall i :: 0 <= i < |p.pages| ==> p.pages[i].path != "/"
    case NoColors => p.design.Some? && !HasColors(p)
    case NoPrimary => HasColors(p) && Lookup(p.design.value.colors, "primary") == ""
    case NoBackground => HasColors(p) && Lookup(p.design.value.colors, "bg") == ""
    case NoLayout => p.layout.None?
    case BadHeader => p.layout.Some? && p.layout.value.header !in {"", "full", "minimal", "none"}
    case BadFooter => p.layout.Some? && p.layout.value.footer !in {"", "full", "minimal", "none"}
    case BadAction(i) =>
      i < |p.endpoints| && p.endpoints[i].action !in
        {"create_api", "create_auth", "create_websocket", "create_stream", "create_upload", "create_llm"}
    case NoPath(i) => i < |p.endpoints| && p.endpoints[i].path == ""
    case NoTableName(i) => i < |p.tables| && p.tables[i].name == ""
    case DuplicateColumn(table, column) =>
      table != "" && exists i :: 0 <= i < |p.tables| && p.tables[i].name == table && ColumnTwice(p.tables[i].columns, column)
    case OnlySystemColumns(table) =>
      table != "" && exists i :: 0 <= i < |p.tables| && p.tables[i].name == table && OnlySystem(p.tables[i].columns)
  }

  // ------------------------------------------------------------------- pages

  lemma PageTwiceSnoc(pages: seq<Page>, page: Page, path: string)
    ensures PageTwice(pages + [page], path) <==> PageTwice(pages, path) || (page.path == path && path in Paths(pages))
  {
    var all := pages + [page];
    PathsAt(pages);
    if PageTwice(pages, path) {
      var i, j :| 0 <= i < j < |pages| && pages[i].path == path && pages[j].path == path;
      assert all[i].path == path && all[j].path == path;
    }
    if page.path == path && path in Paths(pages) {
      var i :| 0 <= i < |pages| && Paths(pages)[i] == path;
      assert all[i].path == path && all[|pages|].path == path;
    }
    if PageTwice(all, path) {
      var i, j :| 0 <= i < j < |all| && all[i].path == path && all[j].path == path;
      assert Paths(pages)[i] == path;
      if j < |pages| {
        assert pages[i].path == path && pages[j].path == path;
      }
    }
  }

  lemma {:induction false} DuplicatesAre(pages: seq<Page>, e: PlanError)
    ensures e in DuplicateErrors(pages) <==> e.DuplicatePage? && PageTwice(pages, e.path)
    decreases |pages|
  {
    if pages != [] {
      DuplicatesAre(Front(pages), e);
      if e.DuplicatePage? {
        PageTwiceSnoc(Front(pages), Last(pages), e.path);
        assert pages == Front(pages) + [Last(pages)];
      }
    }
  }

  lemma PageErrorsAre(pages: seq<Page>, e: PlanError)
    ensures e in PageErrors(pages) <==>
            || (e.DuplicatePage? && PageTwice(pages, e.path))
            || (e == NoHomepage && forall i :: 0 <= i < |pages| ==> pages[i].path != "/")
  {
    DuplicatesAre(pages, e);
    PathsAt(pages);
    if "/" in Paths(pages) {
      var i :| 0 <= i < |pages| && Paths(pages)[i] == "/";
      assert pages[i].path == "/";
    }
  }

  // --------------------------------------------------------------- endpoints

  predicate EndpointFault(endpoints: seq<Endpoint>, e: PlanError) {
    || (e.BadAction? && e.index < |endpoints| && endpoints[e.index].action !in VALID_ACTIONS)
    || (e.NoPath? && e.index < |endpoints| && endpoints[e.index].path == "")
  }

  lemma {:induction false} EndpointErrorsAre(endpoints: seq<Endpoint>, e: PlanError)
    ensures e in EndpointErrors(endpoints) <==> EndpointFault(endpoints, e)
    decreases |endpoints|
  {
    if endpoints != [] {
      EndpointErrorsAre(Front(endpoints), e);
    }
  }

  // ------------------------------------------------------------------ tables

  lemma ColumnTwiceSnoc(columns: seq<Column>, column: Column, name: string)
    ensures ColumnTwice(columns + [column], name) <==>
            ColumnTwice(columns, name) || (column.name == name && name in Names(columns))
  {
    var all := columns + [column];
    NamesAt(columns);
    if ColumnTwice(columns, name) {
      var i, j :| 0 <= i < j < |columns| && columns[i].name == name && columns[j].name == name;
      assert all[i].name == name && all[j].name == name;
    }
    if column.name == name && name in Names(columns) {
      var i :| 0 <= i < |columns| && Names(columns)[i] == name;
      assert all[i].name == name && all[|columns|].name == name;
    }
    if ColumnTwice(all, name) {
      var i, j :| 0 <= i < j < |all| && all[i].name == name && all[j].name == name;
      assert Names(columns)[i] == name;
      if j < |columns| {
        assert columns[i].name == name && columns[j].name == name;
      }
    }
  }

  lemma {:induction false} ColumnErrorsAre(table: string, columns: seq<Column>, e: PlanError)
    ensures e in ColumnErrors(table, columns) <==> e.DuplicateColumn? && e.table == table && ColumnTwice(columns, e.column)
    decreases |columns|
  {
    if columns != [] {
      ColumnErrorsAre(table, Front(columns), e);
      if e.DuplicateColumn? {
        ColumnTwiceSnoc(Front(columns), Last(columns), e.column);
        assert columns == Front(columns) + [Last(columns)];
      }
    }
  }

  predicate TableFault(t: Table, index: nat, e: PlanError) {
    || (e == NoTableName(index) && t.name == "")
    || (t.name != "" && e.DuplicateColumn? && e.table == t.name && ColumnTwice(t.columns, e.column))
    || (t.name != "" && e == OnlySystemColumns(t.name) && OnlySystem(t.columns))
  }

  lemma OneTableErrorsAre(t: Table, index: nat, e: PlanError)
    ensures e in OneTableErrors(t, index) <==> TableFault(t, index, e)
  {
    if t.name != "" {
      ColumnErrorsAre(t.name, t.columns, e);
      NonSystemIff(t.columns);
      assert SYSTEM_COLUMNS == {"id", "created_at", "updated_at"};
    }
  }

  ghost predicate SomeTableFault(tables: seq<Table>, e: PlanError) {
    exists i: nat :: i < |tables| && TableFault(tables[i], i, e)
  }

  lemma LastTableFault(tables: seq<Table>, e: PlanError)
    requires tables != []
    ensures SomeTableFault(tables, e) <==>
            SomeTableFault(Front(tables), e) || TableFault(Last(tables), |tables| - 1, e)
  {
    var n := |tables| - 1;
    if SomeTableFault(tables, e) {
      var i: nat :| i < |tables| && TableFault(tables[i], i, e);
      assert i < n ==> TableFault(Front(tables)[i], i, e);
    }
    if SomeTableFault(Front(tables), e) {
      var i: nat :| i < n && TableFault(Front(tables)[i], i, e);
      assert TableFault(tables[i], i, e);
    }
    assert tables[n] == Last(tables);
  }

  lemma {:induction false} TableErrorsAre(tables: seq<Table>, e: PlanError)
    ensures e in TableErrors(tables) <==> SomeTableFault(tables, e)
    decreases |tables|
  {
    if tables != [] {
      TableErrorsAre(Front(tables), e);
      OneTableErrorsAre(Last(tables), |tables| - 1, e);
      LastTableFault(tables, e);
      assert e in TableErrors(tables) <==>
          e in TableErrors(Front(tables)) || e in OneTableErrors(Last(tables), |tables| - 1);
    }
  }

  lemma TableFaultApplies(p: PlanData, e: PlanError)
    requires e.NoTableName? || e.DuplicateColumn? || e.OnlySystemColumns?
    ensures SomeTableFault(p.tables, e) <==> Applies(p, e)
  {
    if SomeTableFault(p.tables, e) {
      var i: nat :| i < |p.tables| && TableFault(p.tables[i], i, e);
    }
    if Applies(p, e) {
      match e
      case NoTableName(i) =>
        assert TableFault(p.tables[i], i, e);
      case DuplicateColumn(table, column) =>
        var i :| 0 <= i < |p.tables| && p.tables[i].name == table && ColumnTwice(p.tables[i].columns, column);
        assert TableFault(p.tables[i], i, e);
      case OnlySystemColumns(table) =>
        var i :| 0 <= i < |p.tables| && p.tables[i].name == table && OnlySystem(p.tables[i].columns);
        assert TableFault(p.tables[i], i, e);
    }
  }

  // -------------------------------------------------------------- the report

  lemma DesignErrorsAre(p: PlanData, e: PlanError)
    ensures e in DesignErrors(p.design) <==> (e.NoColors? || e.NoPrimary? || e.NoBackground?) && Applies(p, e)
  {}

  lemma LayoutErrorsAre(p: PlanData, e: PlanError)
    ensures e in LayoutErrors(p.layout) <==> (e.NoLayout? || e.BadHeader? || e.BadFooter?) && Applies(p, e)
  {
    assert CHROME == {"full", "minimal", "none"};
  }

  lemma EndpointFaultApplies(p: PlanData, e: PlanError)
    requires e.BadAction? || e.NoPath?
    ensures EndpointFault(p.endpoints, e) <==> Applies(p, e)
  {}

  lemma HeadErrorsAre(p: PlanData, e: PlanError)
    ensures e in (if p.appType == "" then [AppTypeMissing] else []) + (if |p.pages| < 1 then [NoPages] else []) <==>
            (e.AppTypeMissing? || e.NoPages?) && Applies(p, e)
  {}

  predicate FromTables(e: PlanError) { e.NoTableName? || e.DuplicateColumn? || e.OnlySystemColumns? }

  lemma TablePart(p: PlanData, e: PlanError)
    ensures e in TableErrors(p.tables) <==> FromTables(e) && Applies(p, e)
  {
    TableErrorsAre(p.tables, e);
    if FromTables(e) {
      TableFaultApplies(p, e);
    }
  }

  lemma EndpointPart(p: PlanData, e: PlanError)
    ensures e in EndpointErrors(p.endpoints) <==> (e.BadAction? || e.NoPath?) && Applies(p, e)
  {
    EndpointErrorsAre(p.endpoints, e);
    if e.BadAction? || e.NoPath? {
      EndpointFaultApplies(p, e);
    }
  }

  lemma PagePart(p: PlanData, e: PlanError)
    ensures e in PageErrors(p.pages) <==> (e.DuplicatePage? || e.NoHomepage?) && Applies(p, e)
  {
    PageErrorsAre(p.pages, e);
  }

  /** An error is reported exactly when it applies. */
  lemma ReportedIffApplies(p: PlanData, e: PlanError)
    ensures e in Errors(p) <==> Applies(p, e)
  {
    var head := (if p.appType == "" then [AppTypeMissing] else []) + (if |p.pages| < 1 then [NoPages] else []);
    HeadErrorsAre(p, e);
    PagePart(p, e);
    DesignErrorsAre(p, e);
    LayoutErrorsAre(p, e);
    EndpointPart(p, e);
    TablePart(p, e);
    InParts(head, PageErrors(p.pages), DesignErrors(p.design), LayoutErrors(p.layout), EndpointErrors(p.endpoints),
            TableErrors(p.tables), e);
  }

  lemma InParts(a: seq<PlanError>, b: seq<PlanError>, c: seq<PlanError>, d: seq<PlanError>, f: seq<PlanError>,
                g: seq<PlanError>, e: PlanError)
    ensures e in a + b + c + d + f + g <==> e in a || e in b || e in c || e in d || e in f || e in g
  {}
}
