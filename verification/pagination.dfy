/**
 * `PaginationCalculator`: the one-based offset, the page count and the
 * page/limit check the search engine runs before every text search.
 *
 * The arguments are JavaScript numbers: the search controller lets a page
 * or limit that `parseInt` could not read through as NaN, so the model
 * keeps NaN.
 */
module Pagination {
  import opened Wrappers
  import opened JsNumber

  /** The largest page size any listing accepts. */
  const MaxLimit: int := 50

  datatype PaginationError = PageTooSmall | LimitOutOfRange

  /** The message each rejection carries. */
  function Message(e: PaginationError): string {
    match e
    case PageTooSmall => "Page must be greater than 0"
    case LimitOutOfRange => "Limit must be between 1 and 50"
  }

  /**
   * `validatePagination`: the page is checked before the limit. A NaN page
   * or limit passes, because every comparison with NaN is false.
   */
  function ValidatePagination(page: Num, limit: Num): (r: Result<(), PaginationError>)
    ensures r.Failure? <==> Below(page, 1.0) || Below(limit, 1.0) || Above(limit, MaxLimit as real)
    ensures Below(page, 1.0) ==> r == Failure(PageTooSmall)
    ensures !Below(page, 1.0) && r.Failure? ==> r.error == LimitOutOfRange
  {
    if Below(page, 1.0) then Failure(PageTooSmall)
    else if Below(limit, 1.0) || Above(limit, MaxLimit as real) then Failure(LimitOutOfRange)
    else Success(())
  }

  /** A page and limit that are integers in range pass the validation. */
  lemma ValidIntegersPass(page: int, limit: int)
    requires page >= 1 && 1 <= limit <= MaxLimit
    ensures ValidatePagination(Fin(page as real), Fin(limit as real)).Success?
  {
  }

  /**
   * `calculateOffset`: `(page - 1) * limit`. The offset plus one page is
   * `page * limit`, and a page of at least 1 never gives a negative offset.
   */
  function CalculateOffset(page: Num, limit: Num): (r: Num)
    ensures r.Fin? <==> page.Fin? && limit.Fin?
    ensures r.Fin? ==> r.v + limit.v == page.v * limit.v
    ensures r.Fin? && page.v >= 1.0 && limit.v >= 0.0 ==> r.v >= 0.0
  {
    if page.NaN? || limit.NaN? then NaN else Fin((page.v - 1.0) * limit.v)
  }

  /** For integers, page `p` starts at the `(p - 1)`-th multiple of the limit. */
  lemma OffsetIsMultiple(page: int, limit: int)
    requires page >= 1 && limit >= 0
    ensures var r := CalculateOffset(Fin(page as real), Fin(limit as real));
      r.Fin? && r.v == ((page - 1) * limit) as real && (page - 1) * limit >= 0
  {
  }

  /**
   * `calculateTotalPages`: `Math.ceil(total / limit)`. Every caller passes
   * a limit that is NaN or an integer of at least 1 (see the controllers).
   */
  function CalculateTotalPages(total: nat, limit: Num): (r: Num)
    requires limit.NaN? || (IsInteger(limit.v) && limit.v >= 1.0)
    ensures r.NaN? <==> limit.NaN?
    ensures r.Fin? ==> IsInteger(r.v) && r.v >= 0.0
    ensures r.Fin? ==> (r.v - 1.0) * limit.v < total as real <= r.v * limit.v
    ensures r.Fin? && total == 0 ==> r.v == 0.0
  {
    if limit.NaN? then NaN
    else
      var l := limit.v.Floor;
      var c := CeilDiv(total, l);
      CeilBoundsAsReals(total, l, c);
      CeilOfNothing(total, l, c);
      Fin(c as real)
  }

  /** The integer bounds of a ceiling quotient, read as real numbers. */
  lemma CeilBoundsAsReals(total: int, l: int, c: int)
    requires (c - 1) * l < total <= c * l
    ensures (c as real - 1.0) * (l as real) < total as real <= (c as real) * (l as real)
  {
    assert ((c - 1) * l) as real == (c as real - 1.0) * (l as real);
    assert (c * l) as real == (c as real) * (l as real);
  }

  /** Nothing to page through takes zero pages, and otherwise the count is not negative. */
  lemma CeilOfNothing(total: nat, l: int, c: int)
    requires l >= 1 && (c - 1) * l < total <= c * l
    ensures c >= 0 && (total == 0 ==> c == 0)
  {
    if c < 0 {
      MulMonotone(c, -1, l);
    }
    if total == 0 && c >= 1 {
      MulMonotone(1, c, l);
    }
  }

  /**
   * The page arithmetic both listings rely on: with `pages` the ceiling of
   * `total / limit`, the zero-based page `p` holds rows iff `p < pages`.
   */
  lemma {:induction false} RowsBeyond(p: int, limit: int, total: int, pages: int)
    requires limit >= 1 && p >= 0
    requires (pages - 1) * limit < total <= pages * limit
    ensures p * limit < total <==> p < pages
  {
    if p < pages {
      MulMonotone(p, pages - 1, limit);
    } else {
      MulMonotone(pages, p, limit);
    }
  }

  /** Multiplying by a non-negative factor keeps the order. */
  lemma MulMonotone(a: int, b: int, c: int)
    requires a <= b && c >= 0
    ensures a * c <= b * c
  {
    assert b * c - a * c == (b - a) * c;
  }

  /**
   * Page `page` (one-based) of a validated listing starts before the end
   * of the rows iff it is one of the `calculateTotalPages` pages.
   */
  lemma OffsetInsideIffPageExists(page: int, limit: int, total: nat)
    requires page >= 1 && 1 <= limit
    ensures var off := CalculateOffset(Fin(page as real), Fin(limit as real));
      var pages := CalculateTotalPages(total, Fin(limit as real));
      off.Fin? && pages.Fin? && (off.v < total as real <==> page as real <= pages.v)
  {
    var pages := CalculateTotalPages(total, Fin(limit as real));
    var c := CeilDiv(total, limit);
    assert (limit as real).Floor == limit;
    assert pages.v == c as real;
    RowsBeyond(page - 1, limit, total, c);
  }
}
