/** The page navigator of components/pagination.tsx: the buttons it shows
    around the current page, the page a click reports, and the jump box
    behind each ellipsis. The `onPageChange` callback is modelled by the
    page a handler reports (`None` when it reports nothing). */
module Pagination {
  import opened Outcomes
  import opened Numerals

  /** One entry of the navigator, in display order. */
  datatype PageItem =
    | PrevArrow(disabled: bool)
    | PageLink(page: int)
    | Gap
    | Current(page: int)
    | NextArrow(disabled: bool)
  {
    predicate IsNumber() {
      PageLink? || Current?
    }
  }

  /** `handlePageChange`: a page inside `1..totalPages` is reported. */
  function HandlePageChange(newPage: int, totalPages: int): (r: Option<int>)
    ensures r.Some? <==> 1 <= newPage <= totalPages
    ensures r.Some? ==> r.value == newPage
  {
    if newPage >= 1 && newPage <= totalPages then Some(newPage) else None
  }

  /** `handleJump`: the typed text is read with `parseInt`; a page inside
      `1..totalPages` is reported and the box is emptied, anything else
      (including `NaN` and `0`, both falsy) leaves the box as it is. */
  function HandleJump(jumpPage: string, totalPages: int): (r: (Option<int>, string))
    ensures r.0.Some? <==> ParseInt(jumpPage).Some? && 1 <= ParseInt(jumpPage).value <= totalPages
    ensures r.0.Some? ==> r.0 == ParseInt(jumpPage) && r.1 == ""
    ensures r.0.None? ==> r.1 == jumpPage
  {
    match ParseInt(jumpPage)
    case Some(page) =>
      if page != 0 && page >= 1 && page <= totalPages then (Some(page), "") else (None, jumpPage)
    case None => (None, jumpPage)
  }

  /** A page typed in the jump box as its decimal numeral is the page
      reported. */
  lemma JumpToTyped(n: nat, totalPages: int)
    requires 1 <= n <= totalPages
    ensures HandleJump(Decimal(n), totalPages) == (Some(n), "")
  {
    ParseIntOfDecimal(n);
  }

  /** The entries left of the current page. */
  function Before(currentPage: int): seq<PageItem> {
    (if currentPage > 2 then [PageLink(1)] else [])
    + (if currentPage > 3 then [Gap] else [])
    + (if currentPage > 1 then [PageLink(currentPage - 1)] else [])
  }

  /** The entries right of the current page. */
  function After(currentPage: int, totalPages: int): seq<PageItem> {
    (if currentPage < totalPages then [PageLink(currentPage + 1)] else [])
    + (if currentPage < totalPages - 2 then [Gap] else [])
    + (if currentPage < totalPages - 1 then [PageLink(totalPages)] else [])
  }

  /** The entries between the two arrows. */
  function Middle(currentPage: int, totalPages: int): seq<PageItem> {
    Before(currentPage) + [Current(currentPage)] + After(currentPage, totalPages)
  }

  /** The navigator: the previous arrow, the pages around the current one,
      the next arrow. */
  function Items(currentPage: int, totalPages: int): (r: seq<PageItem>)
    ensures |r| >= 3
    ensures r[0].PrevArrow? && r[|r| - 1].NextArrow?
    ensures forall k :: 0 < k < |r| - 1 ==> !r[k].PrevArrow? && !r[k].NextArrow?
    ensures exists k :: 0 < k < |r| - 1 && r[k] == Current(currentPage)
  {
    var mid := Middle(currentPage, totalPages);
    var r := [PrevArrow(currentPage <= 1)] + mid + [NextArrow(currentPage >= totalPages)];
    assert forall k :: 0 < k < |r| - 1 ==> r[k] == mid[k - 1];
    assert r[|Before(currentPage)| + 1] == Current(currentPage);
    r
  }

  /** The pages the navigator shows for a current page inside the range:
      the first, the last, and the current one with its neighbours. */
  predicate Shown(n: int, currentPage: int, totalPages: int) {
    1 <= n <= totalPages && (n == 1 || n == totalPages || currentPage - 1 <= n <= currentPage + 1)
  }

  /** The numbered entries are exactly the shown pages, each once and in
      increasing order. */
  lemma NumbersShown(currentPage: int, totalPages: int)
    requires 1 <= currentPage <= totalPages
    ensures var items := Items(currentPage, totalPages);
      forall n :: Shown(n, currentPage, totalPages) <==>
        exists k :: 0 <= k < |items| && items[k].IsNumber() && items[k].page == n
    ensures var items := Items(currentPage, totalPages);
      forall i, j :: 0 <= i < j < |items| && items[i].IsNumber() && items[j].IsNumber() ==>
        items[i].page < items[j].page
  {
    var items := Items(currentPage, totalPages);
    var mid := Middle(currentPage, totalPages);
    ItemsAroundMiddle(currentPage, totalPages);
    forall n | Shown(n, currentPage, totalPages)
      ensures exists k :: 0 <= k < |items| && items[k].IsNumber() && items[k].page == n
    {
      var k := IndexOfShown(n, currentPage, totalPages);
      assert items[k + 1] == mid[k];
    }
    forall k | 0 <= k < |items| && items[k].IsNumber()
      ensures Shown(items[k].page, currentPage, totalPages)
    {
      assert items[k] == mid[k - 1];
      MiddleNumbersShown(currentPage, totalPages, k - 1);
    }
    forall i, j | 0 <= i < j < |items| && items[i].IsNumber() && items[j].IsNumber()
      ensures items[i].page < items[j].page
    {
      assert items[i] == mid[i - 1] && items[j] == mid[j - 1];
      MiddleIncreasing(currentPage, totalPages, i - 1, j - 1);
    }
  }

  /** Between the arrows, the navigator lists the middle entries. */
  lemma ItemsAroundMiddle(currentPage: int, totalPages: int)
    ensures var items := Items(currentPage, totalPages);
      && |items| == |Middle(currentPage, totalPages)| + 2
      && forall k :: 0 < k < |items| - 1 ==> items[k] == Middle(currentPage, totalPages)[k - 1]
  {
  }

  /** Where a shown page sits among the middle entries. */
  lemma IndexOfShown(n: int, currentPage: int, totalPages: int) returns (k: nat)
    requires 1 <= currentPage <= totalPages && Shown(n, currentPage, totalPages)
    ensures var mid := Middle(currentPage, totalPages);
      k < |mid| && mid[k].IsNumber() && mid[k].page == n
  {
    var b := Before(currentPage);
    var a := After(currentPage, totalPages);
    var mid := Middle(currentPage, totalPages);
    if n == currentPage {
      k := |b|;
    } else if n == currentPage - 1 {
      k := |b| - 1;
    } else if n == currentPage + 1 {
      k := |b| + 1;
    } else if n == 1 {
      k := 0;
    } else {
      k := |mid| - 1;
    }
  }

  /** Every numbered middle entry is a shown page. */
  lemma MiddleNumbersShown(currentPage: int, totalPages: int, k: nat)
    requires 1 <= currentPage <= totalPages
    requires k < |Middle(currentPage, totalPages)| && Middle(currentPage, totalPages)[k].IsNumber()
    ensures Shown(Middle(currentPage, totalPages)[k].page, currentPage, totalPages)
  {
  }

  /** The numbered middle entries increase. */
  lemma MiddleIncreasing(currentPage: int, totalPages: int, i: nat, j: nat)
    requires 1 <= currentPage <= totalPages
    requires i < j < |Middle(currentPage, totalPages)|
    requires Middle(currentPage, totalPages)[i].IsNumber() && Middle(currentPage, totalPages)[j].IsNumber()
    ensures Middle(currentPage, totalPages)[i].page < Middle(currentPage, totalPages)[j].page
  {
  }

  /** An ellipsis stands exactly where the shown pages skip: between two
      numbered entries more than one page apart, while adjacent numbered
      entries are consecutive pages. */
  predicate GapsAtSkips(s: seq<PageItem>) {
    && (forall k :: 0 <= k < |s| && s[k].Gap? ==>
          && 0 < k < |s| - 1 && s[k - 1].IsNumber() && s[k + 1].IsNumber()
          && s[k + 1].page - s[k - 1].page > 1)
    && (forall k :: 0 <= k < |s| - 1 && s[k].IsNumber() && s[k + 1].IsNumber() ==>
          s[k + 1].page == s[k].page + 1)
  }

  /** Two well-spaced runs joined where the pages are consecutive stay
      well spaced. */
  lemma {:induction false} GapsJoin(x: seq<PageItem>, y: seq<PageItem>)
    requires GapsAtSkips(x) && GapsAtSkips(y) && |x| > 0 && |y| > 0
    requires x[|x| - 1].IsNumber() && y[0].IsNumber() && y[0].page == x[|x| - 1].page + 1
    ensures GapsAtSkips(x + y)
  {
    var s := x + y;
    forall k | 0 <= k < |s| && s[k].Gap?
      ensures 0 < k < |s| - 1 && s[k - 1].IsNumber() && s[k + 1].IsNumber()
      ensures s[k + 1].page - s[k - 1].page > 1
    {
      if k < |x| {
        assert s[k] == x[k] && s[k - 1] == x[k - 1] && s[k + 1] == x[k + 1];
      } else {
        assert s[k] == y[k - |x|] && s[k - 1] == y[k - 1 - |x|] && s[k + 1] == y[k + 1 - |x|];
      }
    }
    forall k | 0 <= k < |s| - 1 && s[k].IsNumber() && s[k + 1].IsNumber()
      ensures s[k + 1].page == s[k].page + 1
    {
      if k < |x| - 1 {
        assert s[k] == x[k] && s[k + 1] == x[k + 1];
      } else if k >= |x| {
        assert s[k] == y[k - |x|] && s[k + 1] == y[k + 1 - |x|];
      }
    }
  }

  /** A single entry is well spaced. */
  lemma GapsOfOne(x: PageItem)
    requires x.IsNumber()
    ensures GapsAtSkips([x])
  {
  }

  /** Two consecutive pages are well spaced. */
  lemma GapsOfPair(x: PageItem, y: PageItem)
    requires x.IsNumber() && y.IsNumber() && y.page == x.page + 1
    ensures GapsAtSkips([x, y])
  {
    var s := [x, y];
    assert forall k :: 0 <= k < |s| ==> !s[k].Gap?;
  }

  /** Two pages more than one apart with an ellipsis between are well
      spaced. */
  lemma GapsOfSkip(x: PageItem, y: PageItem)
    requires x.IsNumber() && y.IsNumber() && y.page - x.page > 1
    ensures GapsAtSkips([x, Gap, y])
  {
    var s := [x, Gap, y];
    assert forall k :: 0 <= k < |s| && s[k].Gap? ==> k == 1;
  }

  /** The entries left of the current page are well spaced and end at
      the page before it. */
  lemma BeforeGaps(currentPage: int)
    requires currentPage >= 1
    ensures GapsAtSkips(Before(currentPage))
    ensures |Before(currentPage)| > 0 ==> Before(currentPage)[|Before(currentPage)| - 1] == PageLink(currentPage - 1)
  {
    var b := Before(currentPage);
    if currentPage > 3 {
      assert b == [PageLink(1), Gap, PageLink(currentPage - 1)];
      GapsOfSkip(PageLink(1), PageLink(currentPage - 1));
    } else if currentPage == 3 {
      assert b == [PageLink(1), PageLink(2)];
      GapsOfPair(PageLink(1), PageLink(2));
    } else if currentPage == 2 {
      assert b == [PageLink(1)];
      GapsOfOne(PageLink(1));
    } else {
      assert b == [];
    }
  }

  /** The entries right of the current page are well spaced and start at
      the page after it. */
  lemma AfterGaps(currentPage: int, totalPages: int)
    requires currentPage <= totalPages
    ensures GapsAtSkips(After(currentPage, totalPages))
    ensures |After(currentPage, totalPages)| > 0 ==> After(currentPage, totalPages)[0] == PageLink(currentPage + 1)
  {
    var a := After(currentPage, totalPages);
    if currentPage < totalPages - 2 {
      assert a == [PageLink(currentPage + 1), Gap, PageLink(totalPages)];
      GapsOfSkip(PageLink(currentPage + 1), PageLink(totalPages));
    } else if currentPage == totalPages - 2 {
      assert a == [PageLink(currentPage + 1), PageLink(totalPages)];
      GapsOfPair(PageLink(currentPage + 1), PageLink(totalPages));
    } else if currentPage == totalPages - 1 {
      assert a == [PageLink(totalPages)];
      GapsOfOne(PageLink(totalPages));
    } else {
      assert a == [];
    }
  }

  /** The entries up to the current page are well spaced. */
  lemma LeftGaps(currentPage: int)
    requires currentPage >= 1
    ensures GapsAtSkips(Before(currentPage) + [Current(currentPage)])
  {
    var b := Before(currentPage);
    var c := [Current(currentPage)];
    BeforeGaps(currentPage);
    if |b| > 0 {
      GapsJoin(b, c);
    } else {
      assert b + c == c;
    }
  }

  /** The entries between the arrows are well spaced. */
  lemma MiddleGaps(currentPage: int, totalPages: int)
    requires 1 <= currentPage <= totalPages
    ensures GapsAtSkips(Middle(currentPage, totalPages))
  {
    var bc := Before(currentPage) + [Current(currentPage)];
    var a := After(currentPage, totalPages);
    LeftGaps(currentPage);
    AfterGaps(currentPage, totalPages);
    assert bc[|bc| - 1] == Current(currentPage);
    if |a| > 0 {
      GapsJoin(bc, a);
    } else {
      assert bc + a == bc;
    }
  }

  /** Arrows around a well-spaced run keep it well spaced. */
  lemma {:induction false} GapsFramed(prev: bool, mid: seq<PageItem>, next: bool)
    requires GapsAtSkips(mid)
    ensures GapsAtSkips([PrevArrow(prev)] + mid + [NextArrow(next)])
  {
    var s := [PrevArrow(prev)] + mid + [NextArrow(next)];
    forall k | 0 <= k < |s| && s[k].Gap?
      ensures 0 < k < |s| - 1 && s[k - 1].IsNumber() && s[k + 1].IsNumber()
      ensures s[k + 1].page - s[k - 1].page > 1
    {
      assert s[k] == mid[k - 1] && s[k - 1] == mid[k - 2] && s[k + 1] == mid[k];
    }
    forall k | 0 <= k < |s| - 1 && s[k].IsNumber() && s[k + 1].IsNumber()
      ensures s[k + 1].page == s[k].page + 1
    {
      assert s[k] == mid[k - 1] && s[k + 1] == mid[k];
    }
  }

  /** The navigator puts an ellipsis exactly where the shown pages skip. */
  lemma GapsMarkSkips(currentPage: int, totalPages: int)
    requires 1 <= currentPage <= totalPages
    ensures GapsAtSkips(Items(currentPage, totalPages))
  {
    MiddleGaps(currentPage, totalPages);
    GapsFramed(currentPage <= 1, Middle(currentPage, totalPages), currentPage >= totalPages);
  }

  /** Every numbered link reports its own page when clicked, and an arrow
      is disabled exactly when its click would report nothing. */
  lemma ClicksAgree(currentPage: int, totalPages: int)
    requires 1 <= currentPage <= totalPages
    ensures var items := Items(currentPage, totalPages);
      forall k :: 0 <= k < |items| && items[k].PageLink? ==>
        HandlePageChange(items[k].page, totalPages) == Some(items[k].page)
    ensures var items := Items(currentPage, totalPages);
      && (items[0].disabled <==> HandlePageChange(currentPage - 1, totalPages).None?)
      && (items[|items| - 1].disabled <==> HandlePageChange(currentPage + 1, totalPages).None?)
  {
    var items := Items(currentPage, totalPages);
    forall k | 0 <= k < |items| && items[k].PageLink?
      ensures HandlePageChange(items[k].page, totalPages) == Some(items[k].page)
    {
      NumbersShown(currentPage, totalPages);
      assert items[k].IsNumber();
    }
  }
}
