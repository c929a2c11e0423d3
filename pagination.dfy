/**
  * The paginated tables (components/players/PlayersTable.jsx,
  * components/users/UsersTable.jsx, components/teams/TeamsTable.jsx): the
  * current page index, the slice `items.slice(offset, offset + perPage)`
  * it shows, and `Math.ceil(n / perPage)` pages in the pager.
  */
module Pagination {

  const PlayersPerPage := 5
  const UsersPerPage := 5
  const TeamsPerPage := 1

  const NoPlayersMessage := "There are no players yet."
  const NoUsersMessage := "There are no users yet."
  const NoTeamsMessage := "There are no teams yet."

  function Min(a: int, b: int): int {
    if a <= b then a else b
  }

  /** `currentPage * perPage`. */
  function Offset(page: nat, perPage: nat): nat {
    page * perPage
  }

  /** `items.slice(offset, offset + perPage)`: both ends are clamped to the length. */
  function PageSlice<T>(items: seq<T>, page: nat, perPage: nat): (r: seq<T>)
    ensures |r| <= perPage
    ensures Offset(page, perPage) >= |items| ==> r == []
    ensures Offset(page, perPage) < |items| ==> |r| == Min(perPage, |items| - Offset(page, perPage))
    ensures forall k :: 0 <= k < |r| ==> Offset(page, perPage) + k < |items| && r[k] == items[Offset(page, perPage) + k]
  {
    var start := Min(Offset(page, perPage), |items|);
    var end := Min(Offset(page, perPage) + perPage, |items|);
    items[start..end]
  }

  /** `Math.ceil(n / perPage)`. */
  function PageCount(n: nat, perPage: nat): (r: nat)
    requires perPage > 0
    ensures r * perPage >= n
    ensures r > 0 ==> (r - 1) * perPage < n
  {
    (n + perPage - 1) / perPage
  }

  /** The pages from `page` onwards, one after the other. */
  function PagesFrom<T>(items: seq<T>, page: nat, perPage: nat): seq<T>
    requires perPage > 0
    decreases PageCount(|items|, perPage) - page
  {
    if page >= PageCount(|items|, perPage) then []
    else PageSlice(items, page, perPage) + PagesFrom(items, page + 1, perPage)
  }

  lemma MulMonotone(a: nat, b: nat, c: nat)
    requires a <= b
    ensures a * c <= b * c
  {
  }

  lemma MulSucc(a: nat, c: nat)
    ensures (a + 1) * c == a * c + c
  {
  }

  /** A page before the last page count starts inside the items. */
  lemma PageStartsInside(n: nat, page: nat, perPage: nat)
    requires perPage > 0 && page < PageCount(n, perPage)
    ensures Offset(page, perPage) < n
  {
    var count := PageCount(n, perPage);
    MulMonotone(page, count - 1, perPage);
  }

  /** The pages from `page` onwards hold exactly the items from that page's offset. */
  lemma {:induction false} PagesFromAreSuffix<T>(items: seq<T>, page: nat, perPage: nat)
    requires perPage > 0 && page <= PageCount(|items|, perPage)
    ensures PagesFrom(items, page, perPage) == items[Min(Offset(page, perPage), |items|)..]
    decreases PageCount(|items|, perPage) - page
  {
    if page == PageCount(|items|, perPage) {
      MulMonotone(PageCount(|items|, perPage), page, perPage);
    } else {
      PagesFromAreSuffix(items, page + 1, perPage);
      PageStartsInside(|items|, page, perPage);
      MulSucc(page, perPage);
      var start := Offset(page, perPage);
      var end := Min(start + perPage, |items|);
      assert PageSlice(items, page, perPage) == items[start..end];
      assert items[start..] == items[start..end] + items[end..];
    }
  }

  /** Showing page 0, 1, ..., pageCount - 1 in turn shows every item exactly once, in order. */
  lemma PagesPartitionItems<T>(items: seq<T>, perPage: nat)
    requires perPage > 0
    ensures PagesFrom(items, 0, perPage) == items
  {
    PagesFromAreSuffix(items, 0, perPage);
  }

  /** The table, or the message that stands in for it when there is nothing to show. */
  datatype TableView<T> = EmptyMessage(text: string) | Table(rows: seq<T>, pageCount: nat)

  function Render<T>(items: seq<T>, page: nat, perPage: nat, emptyText: string): (r: TableView<T>)
    requires perPage > 0
    ensures r.EmptyMessage? <==> |items| == 0
    ensures r.EmptyMessage? ==> r.text == emptyText
    ensures r.Table? ==> r.rows == PageSlice(items, page, perPage) && r.pageCount == PageCount(|items|, perPage)
  {
    if |items| == 0 then EmptyMessage(emptyText)
    else Table(PageSlice(items, page, perPage), PageCount(|items|, perPage))
  }

  /** With one team per page, page `i` shows team `i`, and there are as many pages as teams. */
  lemma OneTeamPerPage<T>(teams: seq<T>, page: nat)
    ensures PageCount(|teams|, TeamsPerPage) == |teams|
    ensures page < |teams| ==> PageSlice(teams, page, TeamsPerPage) == [teams[page]]
    ensures page >= |teams| ==> PageSlice(teams, page, TeamsPerPage) == []
  {
  }

  /** The `currentPage` state of one table, moved by the pager's `onPageChange`. */
  class Paginator {
    const perPage: nat
    var currentPage: nat

    /** `useState(0)`. */
    constructor (perPage: nat)
      requires perPage > 0
      ensures this.perPage == perPage && currentPage == 0
    {
      this.perPage := perPage;
      currentPage := 0;
    }

    /** `handlePageClick`: the selected page becomes the current page. */
    method HandlePageClick(selected: nat)
      modifies this
      ensures currentPage == selected
    {
      currentPage := selected;
    }

    function View<T>(items: seq<T>, emptyText: string): (r: TableView<T>)
      requires perPage > 0
      reads this
      ensures r.Table? ==> |r.rows| <= perPage
    {
      Render(items, currentPage, perPage, emptyText)
    }
  }
}
