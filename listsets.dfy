/**
 * The `/listsets` command (src/commands/listsets.js): filter the known sets
 * by an optional keyword, open a page of ten, and page through them with
 * the previous and next buttons.
 *
 * `stringSimilarity(title, keyword) > 0.5` is the parameter `similar`.
 */
module ListSets {
  import opened Types
  import opened JsText
  import opened Paging
  import opened Embeds

  /** The filter's test for one set. */
  predicate Keep(title: string, keyword: string, similar: (string, string) -> bool) {
    similar(title, keyword) || Includes(ToLower(title), keyword)
  }

  /** `currSets.filter(...)`: the sets that pass, in their original order. */
  function Matching(sets: seq<SetEntry>, keyword: string, similar: (string, string) -> bool): (r: seq<SetEntry>)
    ensures |r| <= |sets|
    ensures forall e :: e in r <==> e in sets && Keep(e.title, keyword, similar)
  {
    if sets == [] then []
    else (if Keep(sets[0].title, keyword, similar) then [sets[0]] else []) + Matching(sets[1..], keyword, similar)
  }

  /** Filtering a concatenation filters each part: the order of the kept sets is the original order. */
  lemma {:induction false} MatchingAppend(a: seq<SetEntry>, b: seq<SetEntry>, keyword: string, similar: (string, string) -> bool)
    ensures Matching(a + b, keyword, similar) == Matching(a, keyword, similar) + Matching(b, keyword, similar)
    decreases |a|
  {
    if a == [] {
      assert a + b == b;
    } else {
      assert (a + b)[0] == a[0] && (a + b)[1..] == a[1..] + b;
      MatchingAppend(a[1..], b, keyword, similar);
    }
  }

  /**
   * Each set is kept once, in its place, exactly when it passes the filter:
   * together with `MatchingAppend` this pins the result as the order-keeping
   * subsequence of the passing sets, repeats included.
   */
  lemma MatchingOne(e: SetEntry, keyword: string, similar: (string, string) -> bool)
    ensures Matching([e], keyword, similar) == if Keep(e.title, keyword, similar) then [e] else []
  {
    assert [e][1..] == [];
  }

  /** A filter every set passes keeps the whole list unchanged. */
  lemma {:induction false} MatchingAll(sets: seq<SetEntry>, keyword: string, similar: (string, string) -> bool)
    requires forall i :: 0 <= i < |sets| ==> Keep(sets[i].title, keyword, similar)
    ensures Matching(sets, keyword, similar) == sets
    decreases |sets|
  {
    if sets != [] {
      assert Keep(sets[0].title, keyword, similar);
      MatchingAll(sets[1..], keyword, similar);
    }
  }

  /** The sets listed: all of them without a keyword, the matching ones with one. */
  function Listed(sets: seq<SetEntry>, keyword: Option<string>, similar: (string, string) -> bool): seq<SetEntry> {
    if Truthy(keyword) then Matching(sets, keyword.value, similar) else sets
  }

  /** The open listing: the sets shown, the page count and the current page. */
  class SetList {
    const sets: seq<SetEntry>
    const keyword: Option<string>
    const maxPage: nat
    /** The navigation buttons (and their collector) exist only for more than one page. */
    const navigable: bool
    var page: nat

    ghost predicate Valid()
      reads this
    {
      sets != [] && maxPage == MaxPage(|sets|) && 1 <= page <= maxPage && navigable == (maxPage > 1)
    }

    constructor (sets: seq<SetEntry>, keyword: Option<string>, requested: nat)
      requires sets != [] && requested >= 1
      ensures this.sets == sets && this.keyword == keyword
      ensures page == OpeningPage(requested, MaxPage(|sets|))
      ensures Valid()
    {
      this.sets := sets;
      this.keyword := keyword;
      maxPage := MaxPage(|sets|);
      navigable := MaxPage(|sets|) > 1;
      page := OpeningPage(requested, MaxPage(|sets|));
    }

    /** A press of the previous (`prev`) or the next button, and the page shown after it. */
    method Click(prev: bool) returns (e: Embed)
      requires Valid() && navigable
      modifies this
      ensures page == if prev then Prev(old(page), maxPage) else Next(old(page), maxPage)
      ensures Valid()
      ensures e.description == ListText(keyword, PageSlice(page, sets))
    {
      WrapInRange(page, maxPage);
      if prev {
        page := if page - 1 < 1 then maxPage else page - 1;
      } else {
        page := if page + 1 > maxPage then 1 else page + 1;
      }
      e := ListEmbed(page, maxPage, keyword, sets);
    }
  }

  /**
   * `/listsets [page] [title]`: `None` for "No sets matching query found!",
   * otherwise the listing opened on its first shown page.
   */
  method ListSetsCommand(all: seq<SetEntry>, title: Option<string>, requested: Option<nat>,
                         similar: (string, string) -> bool) returns (r: Option<SetList>)
    requires requested.Some? ==> requested.value >= 1
    ensures var keyword := if title.Some? then Some(ToLower(title.value)) else None;
      && (r.None? <==> Listed(all, keyword, similar) == [])
      && (r.Some? ==> && fresh(r.value) && r.value.Valid()
                      && r.value.sets == Listed(all, keyword, similar)
                      && r.value.page == OpeningPage(if requested.Some? then requested.value else 1,
                                                    MaxPage(|Listed(all, keyword, similar)|)))
  {
    var keyword := if title.Some? then Some(ToLower(title.value)) else None;
    var sets := all;
    if Truthy(keyword) {
      sets := Matching(all, keyword.value, similar);
    }
    if sets == [] {
      return None;
    }
    var view := new SetList(sets, keyword, if requested.Some? then requested.value else 1);
    r := Some(view);
  }
}
