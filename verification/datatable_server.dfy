/** The option record `DataTableServer` posts to a table endpoint, and the
    transitions the component applies to it: searching a column, changing page
    or page size, sorting. Also the page count and the "Showing X to Y" footer,
    and the bulk-delete request built from the selected rows. */
module DatatableServer {
  import opened Common
  import opened Text
  import opened Validation

  /** The component's initial page size (`perPage`). */
  const PerPage: nat := 5

  /** A column definition as the table is given it; only `accessorKey` matters here. */
  datatype ColumnDef = ColumnDef(id: string, accessorKey: Option<string>)

  datatype Search = Search(value: string, regex: bool)

  /** One entry of `columns` in the request. */
  datatype Column = Column(data: string, name: string, searchable: bool, orderable: bool, search: Search)

  datatype Dir = Asc | Desc

  datatype Order = Order(column: nat, dir: Dir)

  /** `DatatableOptionsType`. */
  datatype Options = Options(draw: nat, columns: seq<Column>, order: seq<Order>, start: nat, length: nat)

  /** TanStack's pagination state. */
  datatype Pagination = Pagination(pageIndex: nat, pageSize: nat)

  /** One entry of TanStack's sorting state. */
  datatype SortKey = SortKey(id: string, desc: bool)

  /** A definition takes part in the request when its `accessorKey` is truthy. */
  predicate HasKey(def: ColumnDef)
  {
    def.accessorKey.Some? && def.accessorKey.value != ""
  }

  function ColumnFor(def: ColumnDef): Column
    requires HasKey(def)
  {
    Column(def.accessorKey.value, def.accessorKey.value, true, true, Search("", false))
  }

  /** `datatableColumns`: the definitions with an accessor key, in order, each
      searchable and orderable with an empty plain search. */
  function DeriveColumns(defs: seq<ColumnDef>): (r: seq<Column>)
    ensures |r| == |Filter(defs, HasKey)|
    ensures forall i :: 0 <= i < |r| ==>
      var key := Filter(defs, HasKey)[i].accessorKey.value;
      r[i] == Column(key, key, true, true, Search("", false))
    ensures forall i :: 0 <= i < |r| ==> r[i].searchable && r[i].orderable && r[i].search == Search("", false)
  {
    var kept := Filter(defs, HasKey);
    seq(|kept|, i requires 0 <= i < |kept| => ColumnFor(kept[i]))
  }

  /** Every column of the request comes from a definition with that key, and
      every definition with a key gives a column. */
  lemma DeriveColumnsComplete(defs: seq<ColumnDef>)
    ensures forall i :: 0 <= i < |DeriveColumns(defs)| ==>
      exists j :: 0 <= j < |defs| && defs[j].accessorKey == Some(DeriveColumns(defs)[i].name)
    ensures forall j :: 0 <= j < |defs| && HasKey(defs[j]) ==>
      exists i :: 0 <= i < |DeriveColumns(defs)| && DeriveColumns(defs)[i].name == defs[j].accessorKey.value
  {
    var kept := Filter(defs, HasKey);
    var r := DeriveColumns(defs);
    forall i | 0 <= i < |r|
      ensures exists j :: 0 <= j < |defs| && defs[j].accessorKey == Some(r[i].name)
    {
      assert kept[i] in defs;
    }
    forall j | 0 <= j < |defs| && HasKey(defs[j])
      ensures exists i :: 0 <= i < |r| && r[i].name == defs[j].accessorKey.value
    {
      assert defs[j] in kept;
      var i :| 0 <= i < |kept| && kept[i] == defs[j];
      assert r[i].name == defs[j].accessorKey.value;
    }
  }

  /** `defaultOptions`: first draw, first row, five rows, no order. */
  function DefaultOptions(defs: seq<ColumnDef>): (o: Options)
    ensures o.draw == 1 && o.start == 0 && o.length == PerPage && o.order == []
    ensures o.columns == DeriveColumns(defs)
  {
    Options(1, DeriveColumns(defs), [], 0, PerPage)
  }

  /** The initial pagination state: page index 0 (`page - 1`), five rows. */
  const InitialPagination := Pagination(0, PerPage)

  // ----- column lookup -----

  /** The least index at or after `from` whose column has the name, or -1. */
  function ColumnIndexFrom(columns: seq<Column>, name: string, from: nat): (r: int)
    requires from <= |columns|
    decreases |columns| - from
    ensures r == -1 || from <= r < |columns|
    ensures r == -1 <==> forall j :: from <= j < |columns| ==> columns[j].name != name
    ensures r != -1 ==> columns[r].name == name && forall j :: from <= j < r ==> columns[j].name != name
  {
    if from == |columns| then -1
    else if columns[from].name == name then from
    else ColumnIndexFrom(columns, name, from + 1)
  }

  /** `findColumnIndex`: the first column with that name, or -1. */
  function ColumnIndex(columns: seq<Column>, name: string): (r: int)
    ensures -1 <= r < |columns|
    ensures r == -1 <==> forall j :: 0 <= j < |columns| ==> columns[j].name != name
    ensures r != -1 ==> columns[r].name == name && forall j :: 0 <= j < r ==> columns[j].name != name
  {
    ColumnIndexFrom(columns, name, 0)
  }

  /** `findColumnIndex` as the component writes it: a scan that returns at the first match. */
  method FindColumnIndex(columns: seq<Column>, name: string) returns (r: int)
    ensures -1 <= r < |columns|
    ensures r == -1 <==> forall j :: 0 <= j < |columns| ==> columns[j].name != name
    ensures r != -1 ==> columns[r].name == name && forall j :: 0 <= j < r ==> columns[j].name != name
  {
    var i := 0;
    while i < |columns|
      invariant 0 <= i <= |columns|
      invariant forall j :: 0 <= j < i ==> columns[j].name != name
    {
      if columns[i].name == name {
        return i;
      }
      i := i + 1;
    }
    return -1;
  }

  /** The scan and the recursive definition agree. */
  lemma FindColumnIndexAgrees(columns: seq<Column>, name: string, r: int)
    requires -1 <= r < |columns|
    requires r == -1 <==> forall j :: 0 <= j < |columns| ==> columns[j].name != name
    requires r != -1 ==> columns[r].name == name && forall j :: 0 <= j < r ==> columns[j].name != name
    ensures r == ColumnIndex(columns, name)
  {
  }

  // ----- transitions -----

  /** The search handler, once its 500 ms delay has run out: on a known column
      only that column's search text changes and the request restarts at the
      first row with five rows; the table goes back to page 0. An unknown column
      changes nothing. */
  function OnSearch(opts: Options, pagination: Pagination, column: string, value: string): (r: (Options, Pagination))
    ensures var i := ColumnIndex(opts.columns, column);
      && (i == -1 ==> r == (opts, pagination))
      && (i != -1 ==>
        && |r.0.columns| == |opts.columns|
        && r.0.columns[i] == opts.columns[i].(search := opts.columns[i].search.(value := value))
        && (forall j :: 0 <= j < |opts.columns| && j != i ==> r.0.columns[j] == opts.columns[j])
        && r.0 == opts.(columns := r.0.columns, start := 0, length := PerPage)
        && r.1 == pagination.(pageIndex := 0))
  {
    var i := ColumnIndex(opts.columns, column);
    if i == -1 then (opts, pagination)
    else
      var col := opts.columns[i];
      (opts.(columns := opts.columns[i := col.(search := col.search.(value := value))], start := 0, length := PerPage),
       pagination.(pageIndex := 0))
  }

  /** The page effect as written: the first row is computed from the page index
      and the length of the previous request. */
  function PageChangeAsWritten(opts: Options, pagination: Pagination): (r: Options)
    ensures r.draw == opts.draw + 1 && r.columns == opts.columns && r.order == []
    ensures r.start == pagination.pageIndex * opts.length && r.length == pagination.pageSize
  {
    Options(opts.draw + 1, opts.columns, [], pagination.pageIndex * opts.length, pagination.pageSize)
  }

  /** The page effect with the first row computed from the new page size. */
  function PageChange(opts: Options, pagination: Pagination): (r: Options)
    ensures r.draw == opts.draw + 1 && r.columns == opts.columns && r.order == []
    ensures r.length == pagination.pageSize
    ensures r.start + 1 == ShowingFrom(pagination)
  {
    Options(opts.draw + 1, opts.columns, [], pagination.pageIndex * pagination.pageSize, pagination.pageSize)
  }

  /** The two agree whenever the page size did not change. */
  lemma PageChangeSameSize(opts: Options, pagination: Pagination)
    requires opts.length == pagination.pageSize
    ensures PageChangeAsWritten(opts, pagination) == PageChange(opts, pagination)
  {
  }

  /** After switching from five to ten rows on the third page, the table shows
      page index 1 and the footer announces rows 11 to 20, but the request asks
      for the rows from the sixth on. */
  lemma PageChangeAsWrittenMismatch(columns: seq<Column>)
    ensures var opts := Options(3, columns, [], 10, 5);
      var pagination := Pagination(1, 10);
      && ShowingFrom(pagination) == 11
      && PageChangeAsWritten(opts, pagination).start + 1 == 6
      && PageChange(opts, pagination).start + 1 == 11
  {
  }

  /** The sort effect: no sort clears the order; a sort on a known column makes
      it that single column, descending exactly when the sort says so; a sort
      on an unknown column changes nothing. */
  function OnSort(opts: Options, sorting: seq<SortKey>): (r: Options)
    ensures r == opts.(order := r.order)
    ensures |r.order| <= 1 || r.order == opts.order
    ensures sorting == [] ==> r.order == []
    ensures sorting != [] && ColumnIndex(opts.columns, sorting[0].id) == -1 ==> r == opts
    ensures sorting != [] && ColumnIndex(opts.columns, sorting[0].id) != -1 ==>
      |r.order| == 1
      && r.order[0].column == ColumnIndex(opts.columns, sorting[0].id)
      && opts.columns[r.order[0].column].name == sorting[0].id
      && (r.order[0].dir == Desc <==> sorting[0].desc)
  {
    if sorting == [] then opts.(order := [])
    else
      var i := ColumnIndex(opts.columns, sorting[0].id);
      if i == -1 then opts
      else opts.(order := [Order(i, if sorting[0].desc then Desc else Asc)])
  }

  /** At most one order entry survives any sequence of transitions from the default. */
  predicate SingleOrder(opts: Options)
  {
    |opts.order| <= 1
  }

  lemma TransitionsKeepSingleOrder(opts: Options, pagination: Pagination, sorting: seq<SortKey>, column: string, value: string)
    requires SingleOrder(opts)
    ensures SingleOrder(OnSort(opts, sorting))
    ensures SingleOrder(OnSearch(opts, pagination, column, value).0)
    ensures SingleOrder(PageChange(opts, pagination)) && SingleOrder(PageChangeAsWritten(opts, pagination))
  {
  }

  // ----- paging arithmetic -----

  /** `Math.ceil(recordsFiltered / length)`: the fewest pages of `length` rows that hold every row. */
  function PageCount(recordsFiltered: nat, length: nat): (n: nat)
    requires length > 0
    ensures n * length >= recordsFiltered
    ensures n == 0 || (n - 1) * length < recordsFiltered
  {
    (recordsFiltered + length - 1) / length
  }

  /** The first row number the footer shows. */
  function ShowingFrom(pagination: Pagination): (n: nat)
    ensures n == pagination.pageIndex * pagination.pageSize + 1
  {
    pagination.pageIndex * pagination.pageSize + 1
  }

  /** The last row number the footer shows: the page end, capped at the row count. */
  function ShowingTo(pagination: Pagination, count: nat): (n: nat)
    ensures n <= count && n <= (pagination.pageIndex + 1) * pagination.pageSize
    ensures n == count || n == (pagination.pageIndex + 1) * pagination.pageSize
  {
    var end := (pagination.pageIndex + 1) * pagination.pageSize;
    if end > count then count else end
  }

  /** Consecutive full pages tile the rows: each starts right after the previous ends,
      and no page shows more than `pageSize` rows. */
  lemma ShowingTiles(pagination: Pagination, count: nat)
    requires (pagination.pageIndex + 1) * pagination.pageSize <= count
    ensures ShowingTo(pagination, count) + 1 == ShowingFrom(pagination.(pageIndex := pagination.pageIndex + 1))
    ensures ShowingTo(pagination, count) - ShowingFrom(pagination) + 1 == pagination.pageSize
  {
  }

  /** The last page ends at the last row. The page count comes from the
      response to the page-change request, whose `length` is the page size. */
  lemma ShowingLastPage(opts: Options, pagination: Pagination, count: nat)
    requires pagination.pageSize > 0 && count > 0
    requires pagination.pageIndex + 1 == PageCount(count, PageChange(opts, pagination).length)
    ensures ShowingTo(pagination, count) == count
    ensures ShowingFrom(pagination) <= count
  {
    var n := PageCount(count, PageChange(opts, pagination).length);
    assert (pagination.pageIndex + 1) * pagination.pageSize == n * pagination.pageSize;
  }

  // ----- bulk delete -----

  /** The body of the bulk-delete request: `{ids: Object.keys(rowSelection)}`. */
  function BulkRequest(selection: seq<string>): (input: Input)
    ensures input.Keys == {"ids"} && input["ids"].Arr?
    ensures |input["ids"].items| == |selection|
    ensures forall i :: 0 <= i < |selection| ==> input["ids"].items[i] == Str(selection[i])
  {
    map["ids" := Arr(seq(|selection|, i requires 0 <= i < |selection| => Str(selection[i])))]
  }

  /** `onDeleteBulk`: with no route nothing is sent; otherwise the selected keys
      are sent, and the selection is cleared when the request succeeds. */
  function OnDeleteBulk(route: Option<string>, selection: seq<string>, succeeded: bool): (r: Option<(Input, seq<string>)>)
    ensures r.None? <==> route.None?
    ensures r.Some? ==> r.value.0 == BulkRequest(selection)
    ensures r.Some? ==> r.value.1 == (if succeeded then [] else selection)
  {
    match route
    case None => None
    case Some(_) => Some((BulkRequest(selection), if succeeded then [] else selection))
  }
}
