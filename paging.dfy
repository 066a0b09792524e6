/**
 * Pagination of the ranking (`select_data`, `display_page_buttons`) and the
 * session state that the page and project buttons update
 * (`st.session_state.page`, `st.session_state.empreendimento`).
 */
module Paging {
  import opened Ranking

  const ItemsPerPage: nat := 10

  /** The project buttons, in display order. */
  const FilterLabels: seq<string> := [AllProjects, BeGardenLabel, "BE BONIFÁCIO", "BE DEODORO"]

  /** Python's `s[lo:hi]` for non-negative bounds: clamped to the length, and
      empty when `lo` is past the end or `hi <= lo`. */
  function Slice<T>(s: seq<T>, lo: nat, hi: nat): (r: seq<T>)
    ensures |r| == if lo >= |s| || hi <= lo then 0 else (if hi <= |s| then hi else |s|) - lo
    ensures forall j | 0 <= j < |r| :: r[j] == s[lo + j]
  {
    if lo >= |s| || hi <= lo then [] else s[lo..if hi <= |s| then hi else |s|]
  }

  /** `(len(ranking) + items_per_page - 1) // items_per_page`. */
  function TotalPages(n: nat): nat {
    (n + ItemsPerPage - 1) / ItemsPerPage
  }

  /** One page of the ranking and the colours of the same positions. */
  datatype PageView = PageView(entries: seq<Entry>, colors: seq<string>)

  /** `select_data`, with the session's page passed in. */
  function SelectData(ranking: seq<Entry>, colors: seq<string>, page: nat): PageView {
    var start := page * ItemsPerPage;
    PageView(Slice(ranking, start, start + ItemsPerPage), Slice(colors, start, start + ItemsPerPage))
  }

  /** `TotalPages` is the ceiling of `n / 10`: the least page count whose pages
      hold every entry. */
  lemma TotalPagesIsCeiling(n: nat)
    ensures TotalPages(n) * ItemsPerPage >= n
    ensures TotalPages(n) > 0 ==> (TotalPages(n) - 1) * ItemsPerPage < n
  {
  }

  /**
   * A page holds the entries `10p .. 10p+9` of the ranking (fewer on the last
   * page), and the colours of the same positions; it is empty exactly when
   * `p` is not below the page count. With the colours of `prepare_data`, the
   * highlight colour appears on the first entry of page 0 and nowhere else,
   * and every entry of a page has a colour.
   */
  lemma SelectDataSpec(ranking: seq<Entry>, page: nat)
    ensures var v := SelectData(ranking, Colors(|ranking|), page);
            var start := page * ItemsPerPage;
            && (v.entries == [] <==> page >= TotalPages(|ranking|))
            && |v.entries| == (if start >= |ranking| then 0
                               else if start + ItemsPerPage <= |ranking| then ItemsPerPage
                               else |ranking| - start)
            && (forall j | 0 <= j < |v.entries| :: v.entries[j] == ranking[start + j])
            && (ranking != [] ==> |v.colors| == |v.entries|)
            && (forall j | 0 <= j < |v.colors| :: v.colors[j] == FirstColor <==> page == 0 && j == 0)
  {
    var start := page * ItemsPerPage;
    var n := |ranking|;
    TotalPagesIsCeiling(n);
    if page >= TotalPages(n) {
      assert start >= TotalPages(n) * ItemsPerPage;
    } else {
      assert page <= TotalPages(n) - 1;
      assert start <= (TotalPages(n) - 1) * ItemsPerPage;
    }
    assert FirstColor != OthersColor;
  }

  /** The pages from `p` on, concatenated. */
  function PagesFrom<T>(s: seq<T>, p: nat): seq<T>
    decreases |s| - p * ItemsPerPage
  {
    if p * ItemsPerPage >= |s| then []
    else Slice(s, p * ItemsPerPage, p * ItemsPerPage + ItemsPerPage) + PagesFrom(s, p + 1)
  }

  /** Paging loses and repeats nothing: the pages, in order, make up the whole
      ranking. */
  lemma {:induction false} PagesCover<T>(s: seq<T>, p: nat)
    ensures PagesFrom(s, p) == if p * ItemsPerPage >= |s| then [] else s[p * ItemsPerPage..]
    decreases |s| - p * ItemsPerPage
  {
    var start := p * ItemsPerPage;
    if start < |s| {
      PagesCover(s, p + 1);
      var page := Slice(s, start, start + ItemsPerPage);
      if start + ItemsPerPage >= |s| {
        assert page == s[start..];
      } else {
        assert page + s[start + ItemsPerPage..] == s[start..];
      }
    }
  }

  /**
   * The per-session state: the current page and the current project filter.
   * Each button click changes it by one transition.
   */
  class PageState {
    var page: int
    var project: string

    /** The page index is one the ranking's page buttons can reach: a proper
        page of a non-empty ranking, and 0 when there is nothing to page. */
    predicate PageInRange(rankingLength: nat)
      reads this
    {
      0 <= page && (if rankingLength == 0 then page == 0 else page < TotalPages(rankingLength))
    }

    /** A fresh session: page 0 and, until a project button is pressed, every
        project. */
    constructor ()
      ensures page == 0 && project == AllProjects
    {
      page := 0;
      project := AllProjects;
    }

    /** The 'Anterior' button, disabled on page 0. Returns whether it was
        enabled, which tells the app to rerun. */
    method Prev() returns (clicked: bool)
      modifies this
      ensures clicked == (old(page) != 0)
      ensures page == if clicked then old(page) - 1 else old(page)
      ensures project == old(project)
      ensures forall n: nat :: old(PageInRange(n)) ==> PageInRange(n)
    {
      clicked := page != 0;
      if clicked {
        page := page - 1;
      }
    }

    /** The 'Próximo' button, disabled when the page is the last one
        (`total_pages - 1`). The buttons are only shown for a non-empty
        ranking, and then the page stays in range. */
    method Next(rankingLength: nat) returns (clicked: bool)
      modifies this
      ensures clicked == (old(page) != TotalPages(rankingLength) - 1)
      ensures page == if clicked then old(page) + 1 else old(page)
      ensures project == old(project)
      ensures rankingLength > 0 && old(PageInRange(rankingLength)) ==> PageInRange(rankingLength)
    {
      var totalPages: int := TotalPages(rankingLength);
      clicked := page != totalPages - 1;
      if clicked {
        page := page + 1;
      }
    }

    /** A project button: selects the project and goes back to page 0, a page
        every ranking has. */
    method SetFilter(choice: string)
      requires choice in FilterLabels
      modifies this
      ensures project == choice && page == 0
      ensures forall n: nat :: PageInRange(n)
    {
      project := choice;
      page := 0;
    }
  }
}
