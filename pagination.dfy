/**
 * The pagination controller: fixed-size pages over the filtered view, and the
 * numbered page controls of which the current page is marked active.
 */
module Pagination {

  const ItemsPerPage: nat := 10

  function Min(a: int, b: int): int {
    if a <= b then a else b
  }

  /** `Math.ceil(length / itemsPerPage)`. */
  function PageCount(length: nat): (c: nat)
    ensures c * ItemsPerPage >= length
    ensures c == 0 || (c - 1) * ItemsPerPage < length
    ensures c == 0 <==> length == 0
  {
    (length + ItemsPerPage - 1) / ItemsPerPage
  }

  /**
   * `view.slice((page - 1) * itemsPerPage, page * itemsPerPage)`; `slice`
   * clamps both ends to the length of the view.
   */
  function PageSlice<T>(view: seq<T>, page: int): seq<T>
    requires page >= 1
  {
    var start := (page - 1) * ItemsPerPage;
    view[Min(start, |view|)..Min(start + ItemsPerPage, |view|)]
  }

  /**
   * Page p holds the items from position (p - 1) * ItemsPerPage on, at most
   * ItemsPerPage of them, and none when that position is past the end.
   */
  lemma PageSliceSpec<T>(view: seq<T>, page: int)
    requires page >= 1
    ensures var r, start := PageSlice(view, page), (page - 1) * ItemsPerPage;
      && |r| == (if start >= |view| then 0 else Min(ItemsPerPage, |view| - start))
      && forall k :: 0 <= k < |r| ==> r[k] == view[start + k]
  {
  }

  /** A page holds at least one item exactly when its number is at most the page count. */
  lemma PageNonEmptyIffInRange<T>(view: seq<T>, page: int)
    requires page >= 1
    ensures |PageSlice(view, page)| > 0 <==> page <= PageCount(|view|)
  {
    var c := PageCount(|view|);
    PageSliceSpec(view, page);
    if page <= c {
      assert (page - 1) * ItemsPerPage <= (c - 1) * ItemsPerPage;
    } else {
      assert (page - 1) * ItemsPerPage >= c * ItemsPerPage;
    }
  }

  /** Pages 1..n laid end to end. */
  function Pages<T>(view: seq<T>, n: nat): seq<T> {
    if n == 0 then [] else Pages(view, n - 1) + PageSlice(view, n)
  }

  lemma {:induction false} PagesArePrefix<T>(view: seq<T>, n: nat)
    ensures Pages(view, n) == view[..Min(n * ItemsPerPage, |view|)]
  {
    if n > 0 {
      PagesArePrefix(view, n - 1);
      var lo := Min((n - 1) * ItemsPerPage, |view|);
      var hi := Min(n * ItemsPerPage, |view|);
      assert PageSlice(view, n) == view[lo..hi];
      assert view[..lo] + view[lo..hi] == view[..hi];
    }
  }

  /** The pages 1..PageCount, laid end to end, are the whole view: nothing is lost or repeated. */
  lemma PagesCoverView<T>(view: seq<T>)
    ensures Pages(view, PageCount(|view|)) == view
  {
    PagesArePrefix(view, PageCount(|view|));
  }

  /** One `<li class="page-item">`: its page number, and whether it carries `active`. */
  datatype PageControl = PageControl(page: nat, active: bool)

  /** The controls for pages 1..pageCount, the one equal to current being active. */
  function Controls(pageCount: nat, current: int): seq<PageControl> {
    if pageCount == 0 then [] else Controls(pageCount - 1, current) + [PageControl(pageCount, pageCount == current)]
  }

  /** Control k is numbered k + 1 and is active exactly when k + 1 is the current page. */
  lemma {:induction false} ControlsSpec(pageCount: nat, current: int)
    ensures var r := Controls(pageCount, current);
      && |r| == pageCount
      && forall k :: 0 <= k < pageCount ==> r[k].page == k + 1 && (r[k].active <==> k + 1 == current)
  {
    if pageCount > 0 {
      ControlsSpec(pageCount - 1, current);
    }
  }

  function ActiveCount(controls: seq<PageControl>): nat {
    if controls == [] then 0
    else ActiveCount(controls[..|controls| - 1]) + (if controls[|controls| - 1].active then 1 else 0)
  }

  /** Exactly one control is active when the current page is in range, and none otherwise. */
  lemma {:induction false} ExactlyOneActive(pageCount: nat, current: int)
    ensures ActiveCount(Controls(pageCount, current)) == if 1 <= current <= pageCount then 1 else 0
  {
    if pageCount > 0 {
      ExactlyOneActive(pageCount - 1, current);
      ControlsSpec(pageCount - 1, current);
      assert Controls(pageCount, current)[..pageCount - 1] == Controls(pageCount - 1, current);
    }
  }

  /** The loop of `setupPagination`: one control per page, appended in order. */
  method BuildControls(viewLength: nat, current: int) returns (controls: seq<PageControl>)
    ensures controls == Controls(PageCount(viewLength), current)
  {
    var pageCount := PageCount(viewLength);
    controls := [];
    for i := 1 to pageCount + 1
      invariant controls == Controls(i - 1, current)
    {
      controls := controls + [PageControl(i, i == current)];
    }
  }

  /** 23 items make three pages; page 3 has 3 items; page 2 is items 11..20 and control 2 is the active one. */
  lemma TwentyThreeItems<T>(view: seq<T>)
    requires |view| == 23
    ensures PageCount(|view|) == 3
    ensures |PageSlice(view, 3)| == 3
    ensures PageSlice(view, 2) == view[10..20]
    ensures var cs := Controls(3, 2); cs[1].active && !cs[0].active && !cs[2].active
  {
    PageSliceSpec(view, 2);
    PageSliceSpec(view, 3);
    assert PageSlice(view, 2) == view[10..20];
    ControlsSpec(3, 2);
  }
}
