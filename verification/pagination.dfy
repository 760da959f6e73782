/**
 * The pagination bar (frontend/src/components/PaginationTool.jsx): which
 * page links and ellipses are rendered for a page and a page count, and
 * which page each control navigates to when clicked.
 */
module Pagination {
  import opened Wrappers

  /**
   * One rendered control. `target` is the page a click moves to (it calls
   * `setPage` and `handlePagination` with it); `None` is a control whose click
   * does nothing.
   */
  datatype Control =
    | Previous(target: Option<int>)
    | PageLink(number: int, active: bool, target: Option<int>)
    | Ellipsis
    | Next(target: Option<int>)

  /** An inactive link that navigates to the page it shows. */
  function Link(n: int): Control
  {
    PageLink(n, false, Some(n))
  }

  /** The current page: shown as active, with no click handler. */
  function Current(page: int): Control
  {
    PageLink(page, true, None)
  }

  /** The first-page link, its ellipsis and the previous-page link. */
  function Leading(page: int): seq<Control>
  {
    (if page > 2 then [Link(1)] + (if page > 3 then [Ellipsis] else []) else [])
    + (if page > 1 then [Link(page - 1)] else [])
  }

  /** The next-page link, the ellipsis and the last-page link. */
  function Trailing(page: int, totalPages: int): seq<Control>
  {
    (if page < totalPages then [Link(page + 1)] else [])
    + (if page < totalPages - 1 then (if page < totalPages - 2 then [Ellipsis] else []) + [Link(totalPages)] else [])
  }

  /** The whole bar, left to right. */
  function Controls(page: int, totalPages: int): (cs: seq<Control>)
    ensures 3 <= |cs| <= 9
    ensures cs[0].Previous? && cs[|cs| - 1].Next?
    ensures forall i :: 0 < i < |cs| - 1 ==> cs[i].PageLink? || cs[i].Ellipsis?
    ensures cs[0].target.Some? <==> page > 1
    ensures cs[0].target.Some? ==> cs[0].target.value == page - 1
    ensures cs[|cs| - 1].target.Some? <==> page < totalPages
    ensures cs[|cs| - 1].target.Some? ==> cs[|cs| - 1].target.value == page + 1
  {
    [Previous(if page > 1 then Some(page - 1) else None)]
    + Leading(page) + [Current(page)] + Trailing(page, totalPages)
    + [Next(if page < totalPages then Some(page + 1) else None)]
  }

  /** The page numbers shown, left to right. */
  function Numbers(cs: seq<Control>): (r: seq<int>)
    ensures |r| <= |cs|
  {
    if cs == [] then []
    else (if cs[0].PageLink? then [cs[0].number] else []) + Numbers(cs[1..])
  }

  lemma {:induction false} NumbersAppend(a: seq<Control>, b: seq<Control>)
    ensures Numbers(a + b) == Numbers(a) + Numbers(b)
  {
    if a == [] {
      assert a + b == b;
    } else {
      var head := if a[0].PageLink? then [a[0].number] else [];
      assert (a + b)[0] == a[0];
      assert (a + b)[1..] == a[1..] + b;
      assert Numbers(a + b) == head + Numbers(a[1..] + b);
      NumbersAppend(a[1..], b);
      assert Numbers(a) == head + Numbers(a[1..]);
      assert head + (Numbers(a[1..]) + Numbers(b)) == (head + Numbers(a[1..])) + Numbers(b);
    }
  }

  lemma NumbersLeading(page: int)
    ensures Numbers(Leading(page)) == (if page > 2 then [1] else []) + (if page > 1 then [page - 1] else [])
  {
    if page > 3 {
      assert Leading(page) == [Link(1)] + ([Ellipsis] + [Link(page - 1)]);
      NumbersAppend([Link(1)], [Ellipsis] + [Link(page - 1)]);
      NumbersAppend([Ellipsis], [Link(page - 1)]);
    } else if page > 2 {
      assert Leading(page) == [Link(1)] + [Link(page - 1)];
      NumbersAppend([Link(1)], [Link(page - 1)]);
    } else if page > 1 {
      assert Leading(page) == [Link(page - 1)];
    } else {
      assert Leading(page) == [];
    }
  }

  lemma NumbersTrailing(page: int, totalPages: int)
    ensures Numbers(Trailing(page, totalPages)) ==
      (if page < totalPages then [page + 1] else []) + (if page < totalPages - 1 then [totalPages] else [])
  {
    if page < totalPages - 2 {
      assert Trailing(page, totalPages) == [Link(page + 1)] + ([Ellipsis] + [Link(totalPages)]);
      NumbersAppend([Link(page + 1)], [Ellipsis] + [Link(totalPages)]);
      NumbersAppend([Ellipsis], [Link(totalPages)]);
    } else if page < totalPages - 1 {
      assert Trailing(page, totalPages) == [Link(page + 1)] + [Link(totalPages)];
      NumbersAppend([Link(page + 1)], [Link(totalPages)]);
    } else if page < totalPages {
      assert Trailing(page, totalPages) == [Link(page + 1)];
    } else {
      assert Trailing(page, totalPages) == [];
    }
  }

  /** The page numbers as the five blocks of the bar produce them. */
  lemma BarNumbers(page: int, totalPages: int)
    ensures Numbers(Controls(page, totalPages)) ==
      (if page > 2 then [1] else []) + (if page > 1 then [page - 1] else []) + [page]
      + (if page < totalPages then [page + 1] else []) + (if page < totalPages - 1 then [totalPages] else [])
  {
    var prev := [Previous(if page > 1 then Some(page - 1) else None)];
    var next := [Next(if page < totalPages then Some(page + 1) else None)];
    var lead, trail := Leading(page), Trailing(page, totalPages);
    var a := prev + lead;
    assert Numbers(a) == Numbers(lead) by { NumbersAppend(prev, lead); }
    var b := a + [Current(page)];
    assert Numbers(b) == Numbers(lead) + [page] by { NumbersAppend(a, [Current(page)]); }
    var c := b + trail;
    assert Numbers(c) == Numbers(lead) + [page] + Numbers(trail) by { NumbersAppend(b, trail); }
    assert Numbers(c + next) == Numbers(c) by { NumbersAppend(c, next); }
    assert Controls(page, totalPages) == c + next;
    NumbersLeading(page);
    NumbersTrailing(page, totalPages);
  }

  /** The current page is shown exactly once, active and not clickable; every other link navigates to its own number. */
  lemma CurrentIsActive(page: int, totalPages: int)
    ensures var cs := Controls(page, totalPages);
      && Current(page) in cs
      && (forall i :: 0 <= i < |cs| && cs[i].PageLink? ==>
            (cs[i].active <==> cs[i].target.None?)
            && (cs[i].active ==> cs[i].number == page)
            && (cs[i].target.Some? ==> cs[i].target.value == cs[i].number))
      && (forall i, j :: 0 <= i < j < |cs| && cs[i].PageLink? && cs[j].PageLink? ==> !(cs[i].active && cs[j].active))
  {
    var cs := Controls(page, totalPages);
    var k := 1 + |Leading(page)|;
    assert cs[k] == Current(page);
    forall i | 0 <= i < |cs| && cs[i].PageLink? && i != k
      ensures !cs[i].active && cs[i].target == Some(cs[i].number)
    {
      if i < k {
        assert cs[i] in Leading(page);
      } else {
        assert cs[i] in Trailing(page, totalPages);
      }
    }
  }

  /** The neighbouring pages are shown exactly when they exist. */
  lemma NeighbourLinks(page: int, totalPages: int)
    ensures page - 1 in Numbers(Controls(page, totalPages)) <==> page > 1
    ensures page + 1 in Numbers(Controls(page, totalPages)) <==> page < totalPages
  {
    BarNumbers(page, totalPages);
  }

  /**
   * The first-page link appears before the current page when page > 2, and
   * an ellipsis before it exactly when page > 3; symmetrically at the end,
   * with page < totalPages - 1 and page < totalPages - 2.
   */
  lemma EdgeBlocks(page: int, totalPages: int)
    ensures var cs := Controls(page, totalPages);
      exists k :: 0 < k < |cs| - 1 && cs[k] == Current(page)
        && (Ellipsis in cs[..k] <==> page > 3)
        && (Ellipsis in cs[k + 1..] <==> page < totalPages - 2)
        && (page > 2 ==> cs[1] == Link(1))
        && (page < totalPages - 1 ==> cs[|cs| - 2] == Link(totalPages))
  {
    var cs := Controls(page, totalPages);
    var k := 1 + |Leading(page)|;
    assert Ellipsis in cs[..k] <==> page > 3 by {
      assert cs[..k] == [cs[0]] + Leading(page);
      EllipsisInEdges(page, totalPages);
    }
    assert Ellipsis in cs[k + 1..] <==> page < totalPages - 2 by {
      assert cs[k + 1..] == Trailing(page, totalPages) + [cs[|cs| - 1]];
      EllipsisInEdges(page, totalPages);
    }
    assert cs[k] == Current(page);
  }

  lemma EllipsisInEdges(page: int, totalPages: int)
    ensures Ellipsis in Leading(page) <==> page > 3
    ensures Ellipsis in Trailing(page, totalPages) <==> page < totalPages - 2
  {
  }

  /**
   * With the current page in range, the shown numbers are exactly 1, the last
   * page and the pages next to the current one.
   */
  lemma NumbersWindow(page: int, totalPages: int, n: int)
    requires 1 <= page <= totalPages
    ensures n in Numbers(Controls(page, totalPages)) <==>
      1 <= n <= totalPages && (n == 1 || n == totalPages || page - 1 <= n <= page + 1)
  {
    BarNumbers(page, totalPages);
  }

  /** With the current page in range, the shown numbers increase strictly and stay within 1..totalPages. */
  lemma NumbersIncreasing(page: int, totalPages: int)
    requires 1 <= page <= totalPages
    ensures var ns := Numbers(Controls(page, totalPages));
      && (forall i :: 0 <= i < |ns| ==> 1 <= ns[i] <= totalPages)
      && (forall i, j :: 0 <= i < j < |ns| ==> ns[i] < ns[j])
  {
    BarNumbers(page, totalPages);
  }

  /**
   * With the current page in range, an ellipsis stands between two links and
   * marks a gap: adjacent links show consecutive pages, and the pages on
   * either side of an ellipsis are at least two apart.
   */
  lemma EllipsisMarksGap(page: int, totalPages: int)
    requires 1 <= page <= totalPages
    ensures var cs := Controls(page, totalPages);
      && (forall i :: 0 < i < |cs| - 2 && cs[i].PageLink? && cs[i + 1].PageLink? ==>
            cs[i + 1].number == cs[i].number + 1)
      && (forall i :: 0 < i < |cs| - 1 && cs[i].Ellipsis? ==>
            (1 < i < |cs| - 2 && cs[i - 1].PageLink? && cs[i + 1].PageLink?
             && cs[i + 1].number >= cs[i - 1].number + 2))
  {
    var first := Previous(if page > 1 then Some(page - 1) else None);
    var last := Next(if page < totalPages then Some(page + 1) else None);
    var mid := Leading(page) + [Current(page)] + Trailing(page, totalPages);
    assert Controls(page, totalPages) == [first] + mid + [last];
    EdgeShapes(page, totalPages);
    MiddleConsecutive(Leading(page), page, Trailing(page, totalPages), totalPages);
    MiddleGaps(Leading(page), page, Trailing(page, totalPages), totalPages);
    GapsFramed(first, mid, last);
  }

  /** The gap properties of the links carry over once Previous and Next are put around them. */
  lemma GapsFramed(first: Control, mid: seq<Control>, last: Control)
    requires !first.PageLink? && !first.Ellipsis? && !last.PageLink? && !last.Ellipsis?
    requires forall i :: 0 <= i < |mid| - 1 && mid[i].PageLink? && mid[i + 1].PageLink? ==>
      mid[i + 1].number == mid[i].number + 1
    requires forall i :: 0 <= i < |mid| && mid[i].Ellipsis? ==>
      (0 < i < |mid| - 1 && mid[i - 1].PageLink? && mid[i + 1].PageLink?
       && mid[i + 1].number >= mid[i - 1].number + 2)
    ensures var cs := [first] + mid + [last];
      && (forall i :: 0 < i < |cs| - 2 && cs[i].PageLink? && cs[i + 1].PageLink? ==>
            cs[i + 1].number == cs[i].number + 1)
      && (forall i :: 0 < i < |cs| - 1 && cs[i].Ellipsis? ==>
            (1 < i < |cs| - 2 && cs[i - 1].PageLink? && cs[i + 1].PageLink?
             && cs[i + 1].number >= cs[i - 1].number + 2))
  {
    var cs := [first] + mid + [last];
    assert forall i :: 0 < i < |cs| - 1 ==> cs[i] == mid[i - 1];
  }

  lemma EdgeShapes(page: int, totalPages: int)
    requires 1 <= page <= totalPages
    ensures Leading(page) == (if page > 3 then [Link(1), Ellipsis, Link(page - 1)]
      else if page == 3 then [Link(1), Link(2)]
      else if page == 2 then [Link(1)]
      else [])
    ensures Trailing(page, totalPages) == (if page < totalPages - 2 then [Link(page + 1), Ellipsis, Link(totalPages)]
      else if page == totalPages - 2 then [Link(page + 1), Link(totalPages)]
      else if page == totalPages - 1 then [Link(totalPages)]
      else [])
  {
  }

  /** The blocks on either side of the current page, for a page in range. */
  predicate EdgeShaped(head: seq<Control>, page: int, tail: seq<Control>, totalPages: int)
  {
    && 1 <= page <= totalPages
    && head == (if page > 3 then [Link(1), Ellipsis, Link(page - 1)]
      else if page == 3 then [Link(1), Link(2)]
      else if page == 2 then [Link(1)]
      else [])
    && tail == (if page < totalPages - 2 then [Link(page + 1), Ellipsis, Link(totalPages)]
      else if page == totalPages - 2 then [Link(page + 1), Link(totalPages)]
      else if page == totalPages - 1 then [Link(totalPages)]
      else [])
  }

  /** Adjacent links between Previous and Next show consecutive pages. */
  lemma MiddleConsecutive(head: seq<Control>, page: int, tail: seq<Control>, totalPages: int)
    requires EdgeShaped(head, page, tail, totalPages)
    ensures var mid := head + [Current(page)] + tail;
      forall i :: 0 <= i < |mid| - 1 && mid[i].PageLink? && mid[i + 1].PageLink? ==>
        mid[i + 1].number == mid[i].number + 1
  {
    var mid := head + [Current(page)] + tail;
    var k := |head|;
    assert mid[k] == Current(page);
    forall i | 0 <= i < |mid|
      ensures (i < k ==> mid[i] == head[i]) && (i > k ==> mid[i] == tail[i - k - 1])
    {
    }
  }

  /** An ellipsis between Previous and Next stands between two links at least two pages apart. */
  lemma MiddleGaps(head: seq<Control>, page: int, tail: seq<Control>, totalPages: int)
    requires EdgeShaped(head, page, tail, totalPages)
    ensures var mid := head + [Current(page)] + tail;
      forall i :: 0 <= i < |mid| && mid[i].Ellipsis? ==>
        (0 < i < |mid| - 1 && mid[i - 1].PageLink? && mid[i + 1].PageLink?
         && mid[i + 1].number >= mid[i - 1].number + 2)
  {
    var mid := head + [Current(page)] + tail;
    var k := |head|;
    forall i | 0 <= i < |mid| && mid[i].Ellipsis?
      ensures 0 < i < |mid| - 1 && mid[i - 1].PageLink? && mid[i + 1].PageLink?
        && mid[i + 1].number >= mid[i - 1].number + 2
    {
      if i < k {
        assert head[i].Ellipsis?;
        assert page > 3 && i == 1;
        assert mid[0] == Link(1) && mid[2] == Link(page - 1);
      } else {
        assert i != k;
        assert tail[i - k - 1].Ellipsis?;
        assert page < totalPages - 2 && i == k + 2;
        assert mid[k + 1] == Link(page + 1) && mid[k + 3] == Link(totalPages);
      }
    }
  }
}
