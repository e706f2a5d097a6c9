/**
 * The `page`/`limit` handling shared by the criteria and division listings: both
 * parameters normalised to positive integers, `offset = (page - 1) * limit`,
 * `totalPages = ceil(total / limit)`, and the window `LIMIT limit OFFSET offset`.
 */
module Pagination {
  import opened Js

  /** The `pagination` object of a listing, with the offset its query used. */
  datatype PageInfo = PageInfo(total: nat, page: int, limit: int, offset: int, totalPages: int)

  const DefaultPage: int := 1
  const DefaultLimit: int := 10

  /**
   * A `page` or `limit` query parameter: an absent one takes the destructuring default,
   * the value goes through `parseInt(v, 10)`, and NaN or anything below 1 is replaced by
   * the default.
   */
  function Normalize(param: Json, fallback: int): (r: int)
    requires fallback >= 1
    ensures r >= 1
    ensures AtLeast(ParseInt(param), 1.0) ==> r == IntOf(ParseInt(param))
    ensures !AtLeast(ParseInt(param), 1.0) ==> r == fallback
  {
    var given := if param.Undefined? then Num(fallback as real) else param;
    var n := ParseInt(given);
    if n.NaN? || n.x < 1.0 then fallback else IntOf(n)
  }

  /** `Math.ceil(a / b)` for a count `a` and a positive `b`. */
  function CeilDiv(a: nat, b: int): (r: nat)
    requires b >= 1
    ensures (r - 1) * b < a <= r * b
    decreases a
  {
    if a == 0 then 0
    else if a <= b then 1
    else
      var r := CeilDiv(a - b, b);
      CeilStep(a, b, r);
      r + 1
  }

  /** One more page of `b` rows covers `b` more rows. */
  lemma CeilStep(a: int, b: int, r: int)
    requires (r - 1) * b < a - b <= r * b
    ensures r * b < a <= (r + 1) * b
  {
    assert (r + 1) * b == r * b + b;
    assert (r - 1) * b == r * b - b;
  }

  /** The pagination of a listing of `total` rows. */
  function Paging(total: nat, pageParam: Json, limitParam: Json): (info: PageInfo)
    ensures info.total == total && info.page >= 1 && info.limit >= 1
    ensures info.page == Normalize(pageParam, DefaultPage) && info.limit == Normalize(limitParam, DefaultLimit)
    ensures info.offset == (info.page - 1) * info.limit && info.offset >= 0
    ensures (info.totalPages - 1) * info.limit < total <= info.totalPages * info.limit
  {
    PageOf(total, Normalize(pageParam, DefaultPage), Normalize(limitParam, DefaultLimit))
  }

  /** Page `page` of `limit` rows each over a listing of `total` rows. */
  function PageOf(total: nat, page: int, limit: int): (info: PageInfo)
    requires page >= 1 && limit >= 1
    ensures info.total == total && info.page == page && info.limit == limit
    ensures info.offset == (page - 1) * limit && info.offset >= 0
    ensures (info.totalPages - 1) * limit < total <= info.totalPages * limit
  {
    MulMonotone(0, page - 1, limit);
    PageInfo(total, page, limit, (page - 1) * limit, CeilDiv(total, limit))
  }

  function Min(a: int, b: int): int {
    if a <= b then a else b
  }

  /** `LIMIT limit OFFSET offset` over rows already in query order. */
  function Window<T>(rows: seq<T>, limit: int, offset: int): (r: seq<T>)
    requires limit >= 1 && offset >= 0
    ensures |r| <= limit
    ensures offset >= |rows| ==> r == []
    ensures offset < |rows| ==> |r| == Min(limit, |rows| - offset)
    ensures forall j :: 0 <= j < |r| ==> offset + j < |rows| && r[j] == rows[offset + j]
  {
    if offset >= |rows| then [] else rows[offset..Min(offset + limit, |rows|)]
  }

  /** The page a listing of `rows` answers with, given its pagination. */
  function PageRows<T>(rows: seq<T>, info: PageInfo): seq<T>
    requires info.limit >= 1 && info.offset >= 0
  {
    Window(rows, info.limit, info.offset)
  }

  lemma MulMonotone(a: int, b: int, c: int)
    requires a <= b && c >= 0
    ensures a * c <= b * c
  {
  }

  /** A page holds rows exactly when its number is at most `totalPages`. */
  lemma PageNonEmptyIff<T>(rows: seq<T>, pageParam: Json, limitParam: Json)
    ensures var info := Paging(|rows|, pageParam, limitParam);
            PageRows(rows, info) != [] <==> info.page <= info.totalPages
  {
    var info := Paging(|rows|, pageParam, limitParam);
    PageInfoNonEmptyIff(rows, info);
  }

  /** The same for any pagination whose fields satisfy what `Paging` ensures. */
  lemma PageInfoNonEmptyIff<T>(rows: seq<T>, info: PageInfo)
    requires info.page >= 1 && info.limit >= 1 && info.offset == (info.page - 1) * info.limit
    requires (info.totalPages - 1) * info.limit < |rows| <= info.totalPages * info.limit
    ensures PageRows(rows, info) != [] <==> info.page <= info.totalPages
  {
    WindowNonEmptyIff(rows, info.page, info.limit, info.totalPages);
  }

  /** The window of page `page` is non-empty exactly when `page` is at most `pages`. */
  lemma WindowNonEmptyIff<T>(rows: seq<T>, page: int, limit: int, pages: int)
    requires page >= 1 && limit >= 1
    requires (pages - 1) * limit < |rows| <= pages * limit
    ensures Window(rows, limit, (page - 1) * limit) != [] <==> page <= pages
  {
    MulMonotone(0, page - 1, limit);
    if page <= pages {
      MulMonotone(page - 1, pages - 1, limit);
    } else {
      MulMonotone(pages, page - 1, limit);
    }
  }

  /**
   * Every row lies on exactly one page, the one numbered `i / limit + 1`, at position
   * `i % limit` there.
   */
  lemma {:induction false} RowOnOnePage<T>(rows: seq<T>, limit: int, i: int)
    requires limit >= 1 && 0 <= i < |rows|
    ensures var p := i / limit + 1;
            var w := Window(rows, limit, (p - 1) * limit);
            i % limit < |w| && w[i % limit] == rows[i]
    ensures forall q :: (q - 1) * limit <= i < q * limit <==> q == i / limit + 1
  {
    var p := i / limit + 1;
    assert i == (p - 1) * limit + i % limit;
    forall q ensures (q - 1) * limit <= i < q * limit <==> q == p {
      if q < p {
        MulMonotone(q, p - 1, limit);
      } else if q > p {
        MulMonotone(p, q - 1, limit);
      }
    }
  }
}
