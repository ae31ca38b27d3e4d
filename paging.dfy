/**
 * The page arithmetic shared by src/commands/listsets.js and
 * src/commands/leaderboards.js: ten entries per page, the opening page, and
 * the previous and next buttons, which wrap around.
 */
module Paging {

  /** `Math.ceil(n / 10)`. */
  function MaxPage(n: nat): (m: nat)
    ensures n == 0 <==> m == 0
    ensures m > 0 ==> 10 * (m - 1) < n <= 10 * m
  {
    (n + 9) / 10
  }

  /** `Math.min(requested ?? 1, maxPage)`. */
  function OpeningPage(requested: nat, maxPage: nat): (p: nat)
    requires requested >= 1
    ensures p <= maxPage && p <= requested
    ensures maxPage >= 1 ==> p >= 1
    ensures p == requested || p == maxPage
  {
    if requested <= maxPage then requested else maxPage
  }

  /** The previous button: `(page - 1) < 1 ? maxPage : page - 1`. */
  function Prev(page: nat, maxPage: nat): nat {
    if page - 1 < 1 then maxPage else page - 1
  }

  /** The next button: `(page + 1) > maxPage ? 1 : page + 1`. */
  function Next(page: nat, maxPage: nat): nat {
    if page + 1 > maxPage then 1 else page + 1
  }

  /**
   * On pages `1 .. maxPage` the buttons stay in range, wrap around at both
   * ends, and undo each other.
   */
  lemma WrapInRange(page: nat, maxPage: nat)
    requires 1 <= page <= maxPage
    ensures 1 <= Prev(page, maxPage) <= maxPage && 1 <= Next(page, maxPage) <= maxPage
    ensures page == 1 ==> Prev(page, maxPage) == maxPage
    ensures page == maxPage ==> Next(page, maxPage) == 1
    ensures Next(Prev(page, maxPage), maxPage) == page
    ensures Prev(Next(page, maxPage), maxPage) == page
  {
  }

  /** `next` pressed `k` times. */
  function NextTimes(page: nat, maxPage: nat, k: nat): nat {
    if k == 0 then page else Next(NextTimes(page, maxPage, k - 1), maxPage)
  }

  /** Below the last page, each `next` moves one page forward. */
  lemma {:induction false} NextForward(page: nat, maxPage: nat, k: nat)
    requires 1 <= page && page + k <= maxPage
    ensures NextTimes(page, maxPage, k) == page + k
    decreases k
  {
    if k > 0 {
      NextForward(page, maxPage, k - 1);
    }
  }

  lemma {:induction false} NextTimesAdd(page: nat, maxPage: nat, a: nat, b: nat)
    ensures NextTimes(page, maxPage, a + b) == NextTimes(NextTimes(page, maxPage, a), maxPage, b)
    decreases b
  {
    if b > 0 {
      NextTimesAdd(page, maxPage, a, b - 1);
    }
  }

  /** Pressing `next` `maxPage` times comes back to the page one started on. */
  lemma NextFullCycle(page: nat, maxPage: nat)
    requires 1 <= page <= maxPage
    ensures NextTimes(page, maxPage, maxPage) == page
  {
    var toEnd := maxPage - page;
    NextForward(page, maxPage, toEnd);
    assert NextTimes(page, maxPage, toEnd + 1) == 1;
    NextTimesAdd(page, maxPage, toEnd + 1, page - 1);
    NextForward(1, maxPage, page - 1);
  }
}
