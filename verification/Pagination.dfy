/** Pages of an ordered query result, and the numbers shown beside a page. */
module Pagination {
  import opened Lists

  datatype Page<T> = Page(data: seq<T>, total: nat, page: nat, totalPages: nat)

  datatype PaginationInfo = PaginationInfo(
    page: nat,
    limit: nat,
    total: nat,
    totalPages: nat,
    hasNext: bool,
    hasPrevious: bool)

  /** `Math.ceil(total / limit)`. */
  function TotalPages(total: nat, limit: nat): nat
    requires limit >= 1
  {
    (total + limit - 1) / limit
  }

  function FindWithPagination<T>(rows: seq<T>, page: nat, limit: nat): Page<T>
    requires page >= 1 && limit >= 1
  {
    Page(Window(rows, (page - 1) * limit, limit), |rows|, page, TotalPages(|rows|, limit))
  }

  function CreatePaginationResponse(total: nat, page: nat, limit: nat): PaginationInfo
    requires limit >= 1
  {
    var totalPages := TotalPages(total, limit);
    PaginationInfo(page, limit, total, totalPages, page < totalPages, page > 1)
  }

  /** Page `page` begins before the end exactly when it is one of the pages. */
  lemma PageBeginsInside(total: nat, page: nat, limit: nat)
    requires page >= 1 && limit >= 1
    ensures (page - 1) * limit < total <==> page <= TotalPages(total, limit)
  {
    var n := TotalPages(total, limit);
    assert n * limit <= total + limit - 1 < n * limit + limit;
    if page <= n {
      Monotone(page - 1, n - 1, limit);
    } else {
      Monotone(n, page - 1, limit);
    }
  }

  lemma Monotone(a: int, b: int, limit: nat)
    requires a <= b
    ensures a * limit <= b * limit
  {
  }

  /** Every page but the last is full, the last is not empty, and beyond it there is nothing. */
  lemma PageSizes<T>(rows: seq<T>, page: nat, limit: nat)
    requires page >= 1 && limit >= 1
    ensures var size, last := |FindWithPagination(rows, page, limit).data|, TotalPages(|rows|, limit);
            && (page < last ==> size == limit)
            && (page == last ==> 1 <= size <= limit)
            && (page > last ==> size == 0)
  {
    PageBeginsInside(|rows|, page, limit);
    PageBeginsInside(|rows|, page + 1, limit);
    assert page * limit == (page - 1) * limit + limit;
  }

  /** Both answers carry the number of all rows, the page asked for, and the least number of pages that holds them. */
  lemma NumbersAreRight<T>(rows: seq<T>, page: nat, limit: nat, n: nat)
    requires page >= 1 && limit >= 1
    ensures var p, info := FindWithPagination(rows, page, limit), CreatePaginationResponse(|rows|, page, limit);
            && p.total == info.total == |rows| && p.page == info.page == page && info.limit == limit
            && p.totalPages == info.totalPages
            && (p.totalPages <= n <==> |rows| <= n * limit)
  {
    PageBeginsInside(|rows|, n + 1, limit);
  }

  /** The first `n` pages one after another. */
  function FirstPages<T>(rows: seq<T>, limit: nat, n: nat): seq<T>
    requires limit >= 1
  {
    if n == 0 then [] else FirstPages(rows, limit, n - 1) + FindWithPagination(rows, n, limit).data
  }

  lemma {:induction false} FirstPagesAreAPrefix<T>(rows: seq<T>, limit: nat, n: nat)
    requires limit >= 1
    ensures n * limit >= 0 && FirstPages(rows, limit, n) == rows[..Min(n * limit, |rows|)]
  {
    if n > 0 {
      FirstPagesAreAPrefix(rows, limit, n - 1);
      assert n * limit == (n - 1) * limit + limit;
    }
  }

  /** All pages, one after another, are the whole result, each row once and in order. */
  lemma PagesMakeTheWhole<T>(rows: seq<T>, limit: nat)
    requires limit >= 1
    ensures FirstPages(rows, limit, TotalPages(|rows|, limit)) == rows
  {
    var n := TotalPages(|rows|, limit);
    FirstPagesAreAPrefix(rows, limit, n);
    PageBeginsInside(|rows|, n + 1, limit);
  }

  /**
   The response promises a next page exactly when asking for it gives rows. Up to one page past the last,
   it promises a previous page exactly when that page has rows.
   */
  lemma NeighboursExactlyWhen<T>(rows: seq<T>, page: nat, limit: nat)
    requires page >= 1 && limit >= 1
    ensures var info := CreatePaginationResponse(|rows|, page, limit);
            && (info.hasNext <==> FindWithPagination(rows, page + 1, limit).data != [])
            && (info.hasPrevious && page <= info.totalPages + 1 <==>
                  page > 1 && FindWithPagination(rows, page - 1, limit).data != [])
  {
    PageSizes(rows, page + 1, limit);
    if page > 1 {
      PageSizes(rows, page - 1, limit);
    }
  }
}
