/** The page arithmetic the three listing views share: `handlePrevPage`,
    `handleNextPage`, `totalPages = data ? Math.ceil(totalCount / pageSize) : 0`
    and the `disabled` tests of the two buttons. The views differ only in the
    constant page size. `totalCount` is `None` while the query has no data. */
module Pagination {
  import opened Common

  /** `Math.ceil(a / b)` for a non-negative count and a positive page size. */
  function CeilDiv(a: nat, b: nat): (r: nat)
    requires b > 0
    ensures r * b >= a
    ensures r == 0 || (r - 1) * b < a
  {
    var q := (a + b - 1) / b;
    DivBounds(a + b - 1, b);
    assert (q - 1) * b == q * b - b;
    q
  }

  /** The quotient and remainder of Euclidean division bracket the dividend. */
  lemma DivBounds(n: nat, b: nat)
    requires b > 0
    ensures (n / b) * b <= n < (n / b) * b + b
  {
  }

  /** Multiplying by a non-negative factor keeps the order. */
  lemma MulMonotone(x: int, y: int, b: nat)
    requires x <= y
    ensures x * b <= y * b
  {
    assert y * b - x * b == (y - x) * b;
  }

  /** `totalPages`. */
  function TotalPages(totalCount: Option<nat>, pageSize: nat): (n: nat)
    requires pageSize > 0
    ensures totalCount.None? ==> n == 0
    ensures totalCount.Some? ==> n * pageSize >= totalCount.value
    ensures totalCount.Some? && n > 0 ==> (n - 1) * pageSize < totalCount.value
  {
    if totalCount.Some? then CeilDiv(totalCount.value, pageSize) else 0
  }

  /** `handlePrevPage`: go back one page unless on the first. */
  function PrevPage(page: int): int {
    if page > 1 then page - 1 else page
  }

  /** The guard of `handleNextPage`: `data && page * pageSize < totalCount`. */
  predicate HasNext(page: int, totalCount: Option<nat>, pageSize: nat) {
    totalCount.Some? && page * pageSize < totalCount.value
  }

  /** `handleNextPage`: advance one page while the guard holds. */
  function NextPage(page: int, totalCount: Option<nat>, pageSize: nat): int {
    if HasNext(page, totalCount, pageSize) then page + 1 else page
  }

  /** `disabled={page <= 1}` on the Previous button. */
  predicate PrevDisabled(page: int) {
    page <= 1
  }

  /** `disabled={totalPages <= page}` on the Next button. */
  predicate NextDisabled(page: int, totalCount: Option<nat>, pageSize: nat)
    requires pageSize > 0
  {
    TotalPages(totalCount, pageSize) <= page
  }

  /** The Previous handler moves exactly when its button is enabled, and
      never below page 1. */
  lemma PrevMatchesButton(page: int)
    ensures PrevPage(page) != page <==> !PrevDisabled(page)
    ensures page >= 1 ==> PrevPage(page) >= 1
  {
  }

  /** The Next handler's guard agrees with the button's ceiling test: with
      data, `page * pageSize < totalCount` iff `page < ceil(totalCount / pageSize)`;
      without data the handler does nothing and, from page 1 on, the button is
      disabled. */
  lemma NextMatchesButton(page: int, totalCount: Option<nat>, pageSize: nat)
    requires pageSize > 0
    ensures totalCount.Some? ==> (HasNext(page, totalCount, pageSize) <==> !NextDisabled(page, totalCount, pageSize))
    ensures totalCount.None? ==> NextPage(page, totalCount, pageSize) == page
    ensures totalCount.None? && page >= 0 ==> NextDisabled(page, totalCount, pageSize)
  {
    if totalCount.Some? {
      var n := TotalPages(totalCount, pageSize);
      if page < n {
        MulMonotone(page, n as int - 1, pageSize);
      } else {
        MulMonotone(n, page, pageSize);
      }
    }
  }

  /** From a page in `[1, max(1, totalPages)]`, either handler stays in that range. */
  lemma StepsStayInRange(page: int, totalCount: Option<nat>, pageSize: nat)
    requires pageSize > 0
    requires 1 <= page
    requires page <= TotalPages(totalCount, pageSize) || page == 1
    ensures var n := TotalPages(totalCount, pageSize);
            var next := NextPage(page, totalCount, pageSize);
            1 <= next && (next <= n || next == 1)
    ensures var n := TotalPages(totalCount, pageSize);
            var prev := PrevPage(page);
            1 <= prev && (prev <= n || prev == 1)
  {
    NextMatchesButton(page, totalCount, pageSize);
  }

  /** A step forward is undone by a step back. */
  lemma NextThenPrev(page: int, totalCount: Option<nat>, pageSize: nat)
    requires page >= 1
    requires HasNext(page, totalCount, pageSize)
    ensures PrevPage(NextPage(page, totalCount, pageSize)) == page
  {
  }
}
