/**
 * The `/leaderboards` command (src/commands/leaderboards.js): one of four
 * stored boards is shown ten entries per page; the previous and next
 * buttons wrap around, and the switch button moves to the next board type.
 *
 * The embed (`GeneralLeaderboardEmbed`) is not part of this model: it is
 * imported from src/helpers/embeds.js, which does not define it.
 */
module Leaderboards {
  import opened Types
  import opened Paging

  /** `nav`: the board types in switching order. */
  const Nav: seq<string> := ["alltime", "daily", "weekly", "monthly"]

  /** A stored board: the empty string, or an object of entries. */
  datatype Stored = Blank | Entries(entries: seq<(string, int)>)

  datatype NavButton = PrevPage | Switch | NextPage

  /** `getCurrBoard`: a board stored as `''` is empty. */
  function CurrBoard(s: Stored): (r: seq<(string, int)>)
    ensures s.Blank? ==> r == []
    ensures s.Entries? ==> r == s.entries
  {
    if s.Blank? then [] else s.entries
  }

  /** `nav.indexOf(type)`, for the four types the option offers. */
  function TypeIndex(typeName: Option<string>): (i: nat)
    requires typeName.Some? ==> typeName.value in Nav
    ensures i < 4 && (typeName.Some? ==> Nav[i] == typeName.value) && (typeName.None? ==> i == 0)
  {
    if typeName.None? || typeName.value == "alltime" then 0
    else if typeName.value == "daily" then 1
    else if typeName.value == "weekly" then 2
    else 3
  }

  /** `(currIndex + 1) % nav.length`. */
  function NextType(i: nat): nat {
    (i + 1) % 4
  }

  /** The switch button goes alltime, daily, weekly, monthly and back to alltime. */
  lemma SwitchCycles(i: nat)
    requires i < 4
    ensures Nav[NextType(i)] == ["daily", "weekly", "monthly", "alltime"][i]
    ensures NextType(NextType(NextType(NextType(i)))) == i
    ensures NextType(i) != i && NextType(NextType(i)) != i && NextType(NextType(NextType(i))) != i
  {
  }

  /** The view the command keeps while its buttons are live. */
  class LeaderboardView {
    const boards: seq<Stored>
    var index: nat
    var board: seq<(string, int)>
    var maxPage: nat
    var page: nat

    /**
     * The board shown is the current type's, its page count is derived from
     * it, and the page is at most the page count, except for page 1 of an
     * empty board (which `next` leads to).
     */
    ghost predicate Valid()
      reads this
    {
      && |boards| == 4 && index < 4
      && board == CurrBoard(boards[index])
      && maxPage == MaxPage(|board|)
      && (page <= maxPage || (maxPage == 0 && page == 1))
    }

    constructor (boards: seq<Stored>, typeName: Option<string>, requested: nat)
      requires |boards| == 4 && requested >= 1
      requires typeName.Some? ==> typeName.value in Nav
      ensures this.boards == boards && index == TypeIndex(typeName)
      ensures page == OpeningPage(requested, maxPage)
      ensures Valid()
    {
      this.boards := boards;
      index := TypeIndex(typeName);
      board := CurrBoard(boards[TypeIndex(typeName)]);
      maxPage := MaxPage(|CurrBoard(boards[TypeIndex(typeName)])|);
      page := OpeningPage(requested, MaxPage(|CurrBoard(boards[TypeIndex(typeName)])|));
    }

    method Click(b: NavButton)
      requires Valid()
      modifies this
      ensures Valid()
      ensures b == PrevPage ==> index == old(index) && maxPage == old(maxPage) && page == Prev(old(page), maxPage)
      ensures b == NextPage ==> index == old(index) && maxPage == old(maxPage) && page == Next(old(page), maxPage)
      ensures b == Switch ==> && index == NextType(old(index))
                              && page == if old(page) <= maxPage then old(page) else maxPage
    {
      match b
      case PrevPage =>
        page := if page - 1 < 1 then maxPage else page - 1;
      case NextPage =>
        page := if page + 1 > maxPage then 1 else page + 1;
      case Switch =>
        index := (index + 1) % 4;
        board := CurrBoard(boards[index]);
        maxPage := MaxPage(|board|);
        page := if maxPage <= page then maxPage else page;
    }
  }

  /**
   * An empty board opens on page 0 of 0; a switch onto an empty board, from
   * any page, gives page 0; `next` then shows page 1 of 0; and a page 0
   * carried onto a non-empty board by a switch stays 0 until `prev` or
   * `next` is pressed.
   */
  lemma EmptyBoardPaging(requested: nat, page: nat, entries: nat)
    requires requested >= 1
    ensures MaxPage(0) == 0 && OpeningPage(requested, MaxPage(0)) == 0
    ensures (if MaxPage(0) <= page then MaxPage(0) else page) == 0
    ensures Next(0, 0) == 1 && Prev(0, 0) == 0
    ensures (if MaxPage(entries) <= 0 then MaxPage(entries) else 0) == 0
  {
  }

  /** On a non-empty board, a page in range stays in range under every button. */
  lemma ButtonsKeepRange(page: nat, maxPage: nat, newMax: nat)
    requires 1 <= page <= maxPage
    ensures 1 <= Prev(page, maxPage) <= maxPage && 1 <= Next(page, maxPage) <= maxPage
    ensures newMax >= 1 ==> 1 <= (if newMax <= page then newMax else page) <= newMax
  {
    WrapInRange(page, maxPage);
  }
}
