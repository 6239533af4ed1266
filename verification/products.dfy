/** What `ProductsComponent` adds to the shared list controller: the
    stock-quantity classifier. */
module Products {
  import opened Wrappers
  import opened Http
  import RemoteList

  const StockDanger: string := "stock-danger"
  const StockNormal: string := "stock-normal"
  const StockSurplus: string := "stock-surplus"

  /** `getStockClass`: at most 10 is danger, at least 50 is surplus, both
      boundaries inclusive; anything between is normal. */
  function StockClass(quantity: int): (r: string)
    ensures r == StockDanger <==> quantity <= 10
    ensures r == StockSurplus <==> quantity >= 50
    ensures r == StockNormal <==> 10 < quantity < 50
  {
    if quantity <= 10 then StockDanger
    else if quantity >= 50 then StockSurplus
    else StockNormal
  }

  /** The classes ordered from scarce to plentiful. */
  function Rank(cssClass: string): int {
    if cssClass == StockDanger then 0 else if cssClass == StockNormal then 1 else 2
  }

  /** More stock never gives a scarcer class. */
  lemma StockClassMonotone(q1: int, q2: int)
    requires q1 <= q2
    ensures Rank(StockClass(q1)) <= Rank(StockClass(q2))
  {
  }

  /** A products load that succeeds takes over the server's counts, with the
      1-based server page turned into the 0-based `currentPage`; one that
      fails keeps the rows and the paging as they were. */
  lemma LoadCopiesPagination<A>(s: RemoteList.ListState<A>, reply: Reply<RemoteList.PagedResponse<A>>)
    requires s.kind.ProductsScreen?
    ensures var r := RemoteList.Load(s, reply);
      match reply
      case Ok(response) =>
        && r.rows == response.data
        && r.page == Some(RemoteList.PageInfo(response.pagination.total, response.pagination.perPage, response.pagination.page - 1))
        && r.error == None && !r.loading
      case Err(_) =>
        && r.rows == s.rows && r.page == s.page
        && r.error == Some("Failed to load products. Please try again.") && !r.loading
  {
  }
}
