/**
 * The yacht listing endpoint, without its database calls: parameter
 * defaults, the requested row range, the pagination metadata of the
 * response and the validation of the sort parameter.
 */
module YachtsApi {
  import opened Wrappers
  import opened QueryString
  import opened Strings

  /** The parameters as read. `parseInt` is an oracle (`None` is `NaN`). */
  datatype ListRequest = ListRequest(
    page: Option<int>,
    limit: Option<int>,
    search: string,
    minLength: Option<string>,
    maxLength: Option<string>,
    builder: Option<string>,
    sortBy: string)

  const DefaultSort: string := "length_m.desc"

  /** The raw filters pass through unchanged, and the sort text is never empty. */
  function ParseListRequest(q: Query, parseInt: string -> Option<int>): (r: ListRequest)
    ensures r.minLength == Get(q, "minLength") && r.maxLength == Get(q, "maxLength") && r.builder == Get(q, "builder")
    ensures r.sortBy != ""
    ensures r.search == "" <==> "search" !in q || q["search"] == ""
    ensures "search" in q ==> r.search == q["search"]
  {
    ListRequest(
      parseInt(GetOr(q, "page", "1")),
      parseInt(GetOr(q, "limit", "20")),
      GetOr(q, "search", ""),
      Get(q, "minLength"),
      Get(q, "maxLength"),
      Get(q, "builder"),
      GetOr(q, "sortBy", DefaultSort))
  }

  /** Missing (or empty) parameters read as page 1, limit 20, no search and the length-descending sort; present ones are used as given. */
  lemma Defaults(q: Query, parseInt: string -> Option<int>)
    requires parseInt("1") == Some(1) && parseInt("20") == Some(20)
    ensures var r := ParseListRequest(q, parseInt);
      && ("page" !in q || q["page"] == "" ==> r.page == Some(1))
      && ("page" in q && q["page"] != "" ==> r.page == parseInt(q["page"]))
      && ("limit" !in q || q["limit"] == "" ==> r.limit == Some(20))
      && ("limit" in q && q["limit"] != "" ==> r.limit == parseInt(q["limit"]))
      && ("search" !in q ==> r.search == "")
      && ("search" in q ==> r.search == q["search"])
      && ("sortBy" !in q || q["sortBy"] == "" ==> r.sortBy == DefaultSort)
      && ("sortBy" in q && q["sortBy"] != "" ==> r.sortBy == q["sortBy"])
  {
  }

  /** `(page - 1) * limit`: the number of rows before the page; none before page 1, and never negative from page 1 on. */
  function Offset(page: int, limit: int): (offset: int)
    ensures page == 1 ==> offset == 0
    ensures page >= 1 && limit >= 0 ==> offset >= 0
  {
    (page - 1) * limit
  }

  /** `range(offset, offset + limit - 1)`: an inclusive range of exactly `limit` rows starting at the offset. */
  function RowRange(page: int, limit: int): (r: (int, int))
    ensures r.0 == Offset(page, limit)
    ensures r.1 - r.0 + 1 == limit
  {
    var offset := Offset(page, limit);
    (offset, offset + limit - 1)
  }

  /** The pages' ranges tile the rows: each page starts right after the previous one ends, and every row lies on page `row / limit + 1`. */
  lemma RangesTile(page: int, limit: int, row: nat)
    requires limit > 0
    ensures RowRange(page + 1, limit).0 == RowRange(page, limit).1 + 1
    ensures var p := row / limit + 1; RowRange(p, limit).0 <= row <= RowRange(p, limit).1
  {
    var p := row / limit + 1;
    assert Offset(p, limit) == (row / limit) * limit;
    assert row == (row / limit) * limit + row % limit;
  }

  /** The JavaScript number `Math.ceil` computes: an integer, `NaN` or `Infinity` (`JSON` then writes the last two as `null`). */
  datatype Num = Finite(v: int) | NaN | Infinity

  /** `Math.ceil(total / limit)`. */
  function CeilDiv(total: nat, limit: int): (r: Num)
    ensures limit > 0 ==> r.Finite? && r.v >= 0 && (r.v - 1) * limit < total <= r.v * limit
    ensures limit == 0 ==> r == if total == 0 then NaN else Infinity
    ensures limit < 0 ==> r.Finite? && r.v <= 0 && r.v * limit <= total < (r.v - 1) * limit
  {
    if limit > 0 then
      var c := (total + limit - 1) / limit;
      assert total + limit - 1 == c * limit + (total + limit - 1) % limit;
      Finite(c)
    else if limit == 0 then
      if total == 0 then NaN else Infinity
    else
      var m := -limit;
      var f := total / m;
      assert total == f * m + total % m;
      Finite(-f)
  }

  /** The `pagination` object of the response. */
  datatype Pagination = Pagination(page: int, limit: int, total: nat, totalPages: Num, hasNext: bool, hasPrev: bool)

  /** `count || 0` rows in all; there is a next page when rows remain past this one, and a previous page past page 1. */
  function PaginationFor(page: int, limit: int, count: Option<nat>): (p: Pagination)
    ensures p.page == page && p.limit == limit && p.total == count.GetOr(0)
    ensures p.totalPages == CeilDiv(p.total, limit)
    ensures p.hasNext <==> Offset(page, limit) + limit < p.total
    ensures p.hasPrev <==> page > 1
  {
    var total := count.GetOr(0);
    var offset := Offset(page, limit);
    Pagination(page, limit, total, CeilDiv(total, limit), offset + limit < total, page > 1)
  }

  lemma MulMono(a: int, b: int, l: int)
    requires a <= b && l >= 0
    ensures a * l <= b * l
  {
    assert b * l - a * l == (b - a) * l;
  }

  /** For a page from 1 on and a positive limit, "there is a next page" means "this is not the last page". */
  lemma HasNextIffBeforeLastPage(page: int, limit: int, count: Option<nat>)
    requires page >= 1 && limit > 0
    ensures var p := PaginationFor(page, limit, count);
      p.totalPages.Finite? && (p.hasNext <==> page < p.totalPages.v)
  {
    var p := PaginationFor(page, limit, count);
    var c := p.totalPages.v;
    assert Offset(page, limit) + limit == page * limit;
    if page < c {
      MulMono(page, c - 1, limit);
    } else {
      MulMono(c, page, limit);
    }
  }

  /** A row of the result lies on a page numbered at most `totalPages`. */
  lemma RowsFitInTotalPages(limit: int, count: Option<nat>, row: nat)
    requires limit > 0 && row < count.GetOr(0)
    ensures var p := PaginationFor(1, limit, count);
      p.totalPages.Finite? && row / limit + 1 <= p.totalPages.v
  {
    var p := PaginationFor(1, limit, count);
    var c := p.totalPages.v;
    var q := row / limit;
    assert row == q * limit + row % limit;
    if q + 1 > c {
      MulMono(c, q, limit);
    }
  }

  /** The sort the query is given: a column and a direction. */
  datatype SortOrder = SortOrder(field: string, ascending: bool)

  const AllowedSortFields: seq<string> := ["length_m", "year_built", "max_speed_kn", "volume_gt"]
  const FallbackSort := SortOrder("length_m", false)

  /** `sortField && sortOrder && allowedSortFields.includes(sortField) && ['asc', 'desc'].includes(sortOrder)`. */
  predicate ValidSort(parts: seq<string>) {
    |parts| >= 2 && parts[0] != "" && parts[1] != "" &&
    parts[0] in AllowedSortFields && (parts[1] == "asc" || parts[1] == "desc")
  }

  /** The sort applied for a `sortBy` value: its own field and direction when both are allowed, or length descending otherwise. */
  function ResolveSort(sortBy: string): (o: SortOrder)
    ensures o.field in AllowedSortFields
    ensures var parts := Split(sortBy, '.');
      ValidSort(parts) ==> o == SortOrder(parts[0], parts[1] == "asc")
    ensures !ValidSort(Split(sortBy, '.')) ==> o == FallbackSort
  {
    var parts := Split(sortBy, '.');
    if ValidSort(parts) then SortOrder(parts[0], parts[1] == "asc") else FallbackSort
  }

  function DirectionText(ascending: bool): string {
    if ascending then "asc" else "desc"
  }

  /** Writing an allowed field and a direction as `field.direction` and resolving it gives back that sort. */
  lemma SortRoundTrip(field: string, ascending: bool)
    requires field in AllowedSortFields
    ensures ResolveSort(field + "." + DirectionText(ascending)) == SortOrder(field, ascending)
  {
    assert '.' !in field;
    assert '.' !in DirectionText(ascending);
    SplitPair(field, '.', DirectionText(ascending));
  }

  /** The default `sortBy` sorts by length, longest first. */
  lemma DefaultSortIsLengthDescending()
    ensures ResolveSort(DefaultSort) == SortOrder("length_m", false)
  {
    assert DefaultSort == "length_m" + "." + DirectionText(false);
    SortRoundTrip("length_m", false);
  }
}
