/** The list controller that `ProductsComponent` and `UsersComponent` both
    implement: a sequence of rows keyed by `id`, a loading flag, an error
    message, the table's filter string and the paging fields. The two screens
    differ in three small ways, selected by `Kind`: their error texts, the
    server pagination the products screen copies, and the client-side
    paginator only the users screen attaches. */
module RemoteList {
  import opened Wrappers
  import opened Http
  import Text

  datatype Kind = ProductsScreen | UsersScreen {
    /** The message the load `error` callback shows. */
    function LoadError(): string {
      match this
      case ProductsScreen => "Failed to load products. Please try again."
      case UsersScreen => "Failed to load users. Please try again."
    }
  }

  datatype Row<A> = Row(id: int, data: A)

  /** The server's `pagination` block; `page` is 1-based. */
  datatype Pagination = Pagination(page: int, perPage: int, total: int, totalPages: int)

  datatype PagedResponse<A> = PagedResponse(data: seq<Row<A>>, pagination: Pagination)

  /** The products screen's `totalItems`, `pageSize` and 0-based `currentPage`. */
  datatype PageInfo = PageInfo(totalItems: int, pageSize: int, currentPage: int)

  /** One screen's state. `page` is present only for products; `paginator` is
      the page index of the paginator attached to the table, which only the
      users screen attaches. */
  datatype ListState<A> = ListState(
    kind: Kind,
    rows: seq<Row<A>>,
    loading: bool,
    error: Option<string>,
    filter: string,
    page: Option<PageInfo>,
    paginator: Option<int>)

  /** The two states agree on everything but `loading` and `error`. */
  predicate SameData<A(==)>(s: ListState<A>, t: ListState<A>) {
    && t.kind == s.kind && t.rows == s.rows && t.filter == s.filter
    && t.page == s.page && t.paginator == s.paginator
  }

  /** The field initialisers: no rows, loading, no error, no filter; the
      products screen starts at 0 items, 20 per page, page 0. */
  function Init<A(==)>(kind: Kind): (s: ListState<A>)
    ensures Valid(s) && s.kind == kind && s.rows == [] && s.loading && s.error == None && s.filter == ""
    ensures s.paginator == None
    ensures s.page == if kind.ProductsScreen? then Some(PageInfo(0, 20, 0)) else None
  {
    var page := if kind.ProductsScreen? then Some(PageInfo(0, 20, 0)) else None;
    ListState(kind, [], true, None, "", page, None)
  }

  /** What every reachable state satisfies: the paging fields belong to the
      right screen, and an error is the screen's own message and is shown
      only once loading has stopped. */
  predicate Valid<A(==)>(s: ListState<A>) {
    && (s.page.Some? <==> s.kind.ProductsScreen?)
    && (s.paginator.Some? ==> s.kind.UsersScreen?)
    && (s.error.Some? ==> !s.loading && s.error.value == s.kind.LoadError())
  }

  /** The start of `loadProducts` / `loadUsers`. */
  function LoadStarted<A(==)>(s: ListState<A>): (r: ListState<A>)
    ensures r.loading && r.error == None && SameData(s, r)
  {
    s.(loading := true, error := None)
  }

  /** The load `next` callback: the rows become the response's data and
      loading stops; the products screen also takes over the server's
      pagination, turning its 1-based page into a 0-based one. An error left
      by an earlier request is not cleared. */
  function LoadSucceeded<A(==)>(s: ListState<A>, response: PagedResponse<A>): (r: ListState<A>)
    ensures r.rows == response.data && !r.loading
    ensures r.kind == s.kind && r.error == s.error && r.filter == s.filter && r.paginator == s.paginator
    ensures s.kind.ProductsScreen? ==>
      r.page == Some(PageInfo(response.pagination.total, response.pagination.perPage, response.pagination.page - 1))
    ensures s.kind.UsersScreen? ==> r.page == s.page
  {
    var p := response.pagination;
    var page := if s.kind.ProductsScreen? then Some(PageInfo(p.total, p.perPage, p.page - 1)) else s.page;
    s.(rows := response.data, page := page, loading := false)
  }

  /** The load `error` callback: the screen's message is shown and loading
      stops; rows and paging stay as they were. */
  function LoadFailed<A(==)>(s: ListState<A>): (r: ListState<A>)
    ensures r.error == Some(s.kind.LoadError()) && !r.loading && SameData(s, r)
  {
    s.(error := Some(s.kind.LoadError()), loading := false)
  }

  /** A whole load: start, then whichever callback the reply triggers. The
      load always ends with loading stopped, showing an error exactly when
      the request failed. */
  function Load<A(==)>(s: ListState<A>, reply: Reply<PagedResponse<A>>): (r: ListState<A>)
    ensures !r.loading
    ensures r.kind == s.kind && r.filter == s.filter && r.paginator == s.paginator
    ensures r.error.Some? <==> reply.Err?
    ensures reply.Err? ==> r.error == Some(s.kind.LoadError())
    ensures reply.Ok? ==> r.rows == reply.value.data
    ensures reply.Ok? && s.kind.ProductsScreen? ==>
      r.page == Some(PageInfo(reply.value.pagination.total, reply.value.pagination.perPage, reply.value.pagination.page - 1))
    ensures reply.Ok? && s.kind.UsersScreen? ==> r.page == s.page
    ensures reply.Err? ==> r.rows == s.rows && r.page == s.page
  {
    match reply
    case Ok(response) => LoadSucceeded(LoadStarted(s), response)
    case Err(_) => LoadFailed(LoadStarted(s))
  }

  /** `applyFilter`: the table filter becomes the trimmed, lower-cased input;
      on the users screen an attached paginator goes back to its first page. */
  function ApplyFilter<A(==)>(s: ListState<A>, input: string): (r: ListState<A>)
    ensures r.filter == Text.Normalize(input)
    ensures r.kind == s.kind && r.rows == s.rows && r.page == s.page && r.loading == s.loading && r.error == s.error
    ensures r.paginator.Some? <==> s.paginator.Some?
    ensures s.kind.UsersScreen? && s.paginator.Some? ==> r.paginator == Some(0)
    ensures s.kind.ProductsScreen? ==> r.paginator == s.paginator
  {
    var paginator := if s.kind.UsersScreen? && s.paginator.Some? then Some(0) else s.paginator;
    s.(filter := Text.Normalize(input), paginator := paginator)
  }

  /** `ngAfterViewInit`: the users screen hands its paginator, if the view has
      one, to the table, where it starts on page 0. */
  function ViewInit<A(==)>(s: ListState<A>, hasPaginator: bool): (r: ListState<A>)
    ensures r.kind == s.kind && r.rows == s.rows && r.page == s.page
    ensures r.loading == s.loading && r.error == s.error && r.filter == s.filter
    ensures r.paginator.Some? <==> s.kind.UsersScreen? && hasPaginator
    ensures r.paginator.Some? ==> r.paginator.value == 0
  {
    if s.kind.UsersScreen? then s.(paginator := if hasPaginator then Some(0) else None)
    else s.(paginator := None)
  }

  /** The attached paginator moving to another page, as the user pages
      through the table (the paginator's own behaviour). */
  function PageChanged<A(==)>(s: ListState<A>, index: nat): (r: ListState<A>)
    ensures r.paginator == (if s.paginator.Some? then Some(index) else None)
    ensures r.kind == s.kind && r.rows == s.rows && r.page == s.page
    ensures r.filter == s.filter && r.loading == s.loading && r.error == s.error
  {
    if s.paginator.Some? then s.(paginator := Some(index)) else s
  }

  /** `rows.filter(x => x.id !== id)`. */
  function Without<A(==)>(rows: seq<Row<A>>, id: int): (r: seq<Row<A>>)
    ensures forall i :: 0 <= i < |r| ==> r[i] in rows && r[i].id != id
    ensures forall i :: 0 <= i < |rows| && rows[i].id != id ==> rows[i] in r
    ensures |r| == |rows| - Count(rows, id)
  {
    if rows == [] then []
    else if rows[0].id == id then Without(rows[1..], id)
    else [rows[0]] + Without(rows[1..], id)
  }

  /** How many rows carry `id`. */
  function Count<A(==)>(rows: seq<Row<A>>, id: int): (n: nat)
    ensures n <= |rows|
  {
    if rows == [] then 0 else (if rows[0].id == id then 1 else 0) + Count(rows[1..], id)
  }

  /** The delete `next` callback: every row with the id goes; nothing else
      changes. */
  function DeleteSucceeded<A(==)>(s: ListState<A>, id: int): (r: ListState<A>)
    ensures forall i :: 0 <= i < |r.rows| ==> r.rows[i] in s.rows && r.rows[i].id != id
    ensures forall i :: 0 <= i < |s.rows| && s.rows[i].id != id ==> s.rows[i] in r.rows
    ensures r == s.(rows := Without(s.rows, id))
  {
    s.(rows := Without(s.rows, id))
  }

  /** `deleteProduct` / `deleteUser`: nothing happens unless the user
      confirms; then a successful request removes the rows locally and a
      failed one (which only raises an alert) leaves the state as it was. */
  function Delete<A(==)>(s: ListState<A>, id: int, confirmed: bool, reply: Reply<()>): (r: ListState<A>)
    ensures !confirmed || reply.Err? ==> r == s
    ensures confirmed && reply.Ok? ==> r == s.(rows := Without(s.rows, id))
  {
    if !confirmed then s
    else match reply
      case Ok(_) => DeleteSucceeded(s, id)
      case Err(_) => s
  }

  /** Removal commutes with concatenation, so the rows that stay keep their
      relative order. */
  lemma {:induction false} WithoutConcat<A>(a: seq<Row<A>>, b: seq<Row<A>>, id: int)
    ensures Without(a + b, id) == Without(a, id) + Without(b, id)
    decreases |a|
  {
    if a == [] {
      assert a + b == b;
    } else {
      var ab := a + b;
      assert ab[0] == a[0] && ab[1..] == a[1..] + b;
      WithoutConcat(a[1..], b, id);
      var rest := Without(a[1..], id) + Without(b, id);
      if a[0].id != id {
        calc {
          Without(ab, id);
          [a[0]] + Without(ab[1..], id);
          [a[0]] + rest;
          ([a[0]] + Without(a[1..], id)) + Without(b, id);
          Without(a, id) + Without(b, id);
        }
      }
    }
  }

  /** Removing an id no row carries changes nothing. */
  lemma {:induction false} WithoutAbsent<A>(rows: seq<Row<A>>, id: int)
    requires forall i :: 0 <= i < |rows| ==> rows[i].id != id
    ensures Without(rows, id) == rows
    decreases |rows|
  {
    if rows != [] {
      WithoutAbsent(rows[1..], id);
      assert [rows[0]] + rows[1..] == rows;
    }
  }

  lemma WithoutIdempotent<A>(rows: seq<Row<A>>, id: int)
    ensures Without(Without(rows, id), id) == Without(rows, id)
  {
  }

  /** No two rows share an id. */
  predicate UniqueIds<A(==)>(rows: seq<Row<A>>) {
    forall i, j :: 0 <= i < j < |rows| ==> rows[i].id != rows[j].id
  }

  /** With unique ids, deleting an id that is present removes exactly one row. */
  lemma {:induction false} DeleteRemovesOne<A>(rows: seq<Row<A>>, id: int, k: nat)
    requires UniqueIds(rows) && k < |rows| && rows[k].id == id
    ensures |Without(rows, id)| == |rows| - 1
    decreases |rows|
  {
    if k == 0 {
      forall i | 0 <= i < |rows[1..]| ensures rows[1..][i].id != id {
        assert rows[1..][i] == rows[i + 1];
      }
      WithoutAbsent(rows[1..], id);
    } else {
      assert rows[0].id != id;
      assert UniqueIds(rows[1..]) by {
        forall i, j | 0 <= i < j < |rows[1..]| ensures rows[1..][i].id != rows[1..][j].id {
          assert rows[1..][i] == rows[i + 1] && rows[1..][j] == rows[j + 1];
        }
      }
      DeleteRemovesOne(rows[1..], id, k - 1);
    }
  }

  /** Every load transition keeps a valid state valid. */
  lemma LoadKeepsValid<A>(s: ListState<A>, response: PagedResponse<A>, reply: Reply<PagedResponse<A>>)
    requires Valid(s)
    ensures Valid(LoadStarted(s)) && Valid(LoadSucceeded(s, response)) && Valid(LoadFailed(s))
    ensures Valid(Load(s, reply))
  {
  }

  /** Filtering, paginator changes and deletes keep a valid state valid. */
  lemma EditsKeepValid<A>(s: ListState<A>, input: string, hasPaginator: bool, index: nat,
                          id: int, confirmed: bool, reply: Reply<()>)
    requires Valid(s)
    ensures Valid(ApplyFilter(s, input)) && Valid(ViewInit(s, hasPaginator))
    ensures Valid(PageChanged(s, index)) && Valid(Delete(s, id, confirmed, reply))
  {
  }
}
