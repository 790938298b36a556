/** The testimonial carousel of the landing page: a fixed list of testimonials
    shown ItemsPerPage at a time, a page cursor that starts at 0, previous and
    next buttons that wrap around at both ends, and one indicator button per
    page that jumps straight to that page. */
module Testimonials {

  /** One testimonial card. The carousel never looks inside it. */
  datatype Testimonial = Testimonial(quote: string, author: string, role: string, rating: nat)

  /** The testimonials the page ships with. */
  const Shipped: seq<Testimonial> := [
    Testimonial("TaskMaster transformed how I manage my projects. The calendar is a game-changer!",
                "Sarah Johnson", "Project Manager", 5),
    Testimonial("The task list\U{2019}s filters and export features save me hours every week.",
                "Michael Taylor", "Freelance Designer", 5),
    Testimonial("Beautiful design and super easy to use. I love the dark mode!",
                "Emily Rodriguez", "Marketing Specialist", 5),
    Testimonial("As a student, TaskMaster perfectly organizes my assignments and exams.",
                "David Chen", "CS Student", 5)
  ]

  /** Page size of the carousel. */
  const ItemsPerPage: nat := 4

  function Min(a: int, b: int): int { if a <= b then a else b }

  function Max(a: int, b: int): int { if a <= b then b else a }

  /** Number of pages, Math.ceil(itemCount / ItemsPerPage): the least page
      count whose pages hold every item. */
  function TotalPages(itemCount: nat): (pages: nat)
    ensures itemCount <= pages * ItemsPerPage
    ensures (pages - 1) * ItemsPerPage < itemCount
  {
    (itemCount + ItemsPerPage - 1) / ItemsPerPage
  }

  /** Array.prototype.slice(start, end): a negative bound counts back from the
      end, then both bounds are clamped to [0, |s|], and crossed bounds give
      the empty sequence. */
  function Slice<T>(s: seq<T>, start: int, end: int): (r: seq<T>)
    ensures |r| <= |s|
    ensures 0 <= start <= end <= |s| ==> r == s[start..end]
    ensures 0 <= start <= |s| <= end ==> r == s[start..]
    ensures |s| <= start ==> r == []
    ensures 0 <= end <= start ==> r == []
    ensures start < 0 && Max(|s| + start, 0) <= end <= |s| ==> r == s[Max(|s| + start, 0)..end]
    ensures 0 <= start && end < 0 && start <= Max(|s| + end, 0) ==> r == s[start..Max(|s| + end, 0)]
  {
    var from := if start < 0 then Max(|s| + start, 0) else Min(start, |s|);
    var to := if end < 0 then Max(|s| + end, 0) else Min(end, |s|);
    if from < to then s[from..to] else []
  }

  /** The testimonials shown on a page: the slice starting at page * ItemsPerPage
      and ItemsPerPage long. On a page in range it is a contiguous, non-empty
      run of at most ItemsPerPage items, exactly ItemsPerPage on every page but
      the last; past the last page it is empty. */
  function Visible<T>(items: seq<T>, page: int): (r: seq<T>)
    ensures 0 <= page < TotalPages(|items|) ==>
      r == items[page * ItemsPerPage .. Min(page * ItemsPerPage + ItemsPerPage, |items|)]
    ensures 0 <= page < TotalPages(|items|) ==> 1 <= |r| <= ItemsPerPage
    ensures 0 <= page < TotalPages(|items|) - 1 ==> |r| == ItemsPerPage
    ensures TotalPages(|items|) <= page ==> r == []
  {
    var start := page * ItemsPerPage;
    Slice(items, start, start + ItemsPerPage)
  }

  /** The pages 0 .. count-1, shown one after the other. */
  function PagesUpTo<T>(items: seq<T>, count: nat): (r: seq<T>)
  {
    if count == 0 then [] else PagesUpTo(items, count - 1) + Visible(items, count - 1)
  }

  /** The first count pages, read in order, are the items that precede the
      next page's start. */
  lemma {:induction false} PagesUpToIsPrefix<T>(items: seq<T>, count: nat)
    requires count <= TotalPages(|items|)
    ensures PagesUpTo(items, count) == items[..Min(count * ItemsPerPage, |items|)]
  {
    if count > 0 {
      PagesUpToIsPrefix(items, count - 1);
      var start := (count - 1) * ItemsPerPage;
      assert Min(start, |items|) == start;
      assert items[..start] + items[start..Min(start + ItemsPerPage, |items|)]
          == items[..Min(count * ItemsPerPage, |items|)];
    }
  }

  /** Every item is on exactly one page: reading all pages in order gives the
      item list back. */
  lemma PagesCoverItems<T>(items: seq<T>)
    ensures PagesUpTo(items, TotalPages(|items|)) == items
  {
    PagesUpToIsPrefix(items, TotalPages(|items|));
  }

  /** The cursor update of the previous button: page 0 wraps to the last page,
      any other page steps back by one. */
  function PrevPage(page: int, totalPages: int): (r: int)
    ensures 0 <= page < totalPages ==> 0 <= r < totalPages
    ensures 0 <= page < totalPages ==> r == (page - 1 + totalPages) % totalPages
  {
    if page == 0 then totalPages - 1 else page - 1
  }

  /** The cursor update of the next button: the last page wraps to page 0,
      any other page steps forward by one. */
  function NextPage(page: int, totalPages: int): (r: int)
    ensures 0 <= page < totalPages ==> 0 <= r < totalPages
    ensures 0 <= page < totalPages ==> r == (page + 1) % totalPages
  {
    if page == totalPages - 1 then 0 else page + 1
  }

  /** Previous undoes next. */
  lemma PrevUndoesNext(page: int, totalPages: int)
    requires 0 <= page < totalPages
    ensures PrevPage(NextPage(page, totalPages), totalPages) == page
  {
  }

  /** Next undoes previous. */
  lemma NextUndoesPrev(page: int, totalPages: int)
    requires 0 <= page < totalPages
    ensures NextPage(PrevPage(page, totalPages), totalPages) == page
  {
  }

  /** The page reached by pressing next `presses` times. */
  function NextTimes(page: int, totalPages: int, presses: nat): (r: int)
  {
    if presses == 0 then page else NextPage(NextTimes(page, totalPages, presses - 1), totalPages)
  }

  /** x reduced into [0, n) by taking away whole rounds of n pages. */
  function Wrap(x: nat, n: nat): (r: nat)
    requires 0 < n
    decreases x
  {
    if x < n then x else Wrap(x - n, n)
  }

  /** One more press of next moves the wrapped position one page on. */
  lemma {:induction false} WrapStep(x: nat, n: nat)
    requires 0 < n
    ensures Wrap(x + 1, n) == NextPage(Wrap(x, n), n)
    decreases x
  {
    if n <= x {
      WrapStep(x - n, n);
    }
  }

  /** Pressing next k times moves the cursor k pages forward, wrapping around
      after the last page. */
  lemma {:induction false} NextTimesShifts(page: nat, totalPages: nat, presses: nat)
    requires page < totalPages
    ensures NextTimes(page, totalPages, presses) == Wrap(page + presses, totalPages)
  {
    if presses > 0 {
      NextTimesShifts(page, totalPages, presses - 1);
      WrapStep(page + presses - 1, totalPages);
    }
  }

  /** Pressing next once per page brings the cursor back to where it started. */
  lemma NextCyclesBack(page: nat, totalPages: nat)
    requires page < totalPages
    ensures NextTimes(page, totalPages, totalPages) == page
  {
    NextTimesShifts(page, totalPages, totalPages);
  }

  /** With no items there are no pages, and the unguarded updaters leave the
      page range: previous from page 0 gives -1 and next gives 1. */
  lemma EmptyListLeavesRange()
    ensures TotalPages(0) == 0
    ensures PrevPage(0, TotalPages(0)) == -1
    ensures NextPage(0, TotalPages(0)) == 1
  {
  }

  /** One page-indicator button: the page it selects and whether it is the
      current one (highlighted and aria-current). */
  datatype Indicator = Indicator(page: nat, current: bool)

  /** The indicator row: one button per page, in page order; a button is
      marked current exactly when its page is the cursor. */
  function Indicators(totalPages: nat, currentPage: int): (r: seq<Indicator>)
    ensures |r| == totalPages
    ensures forall i :: 0 <= i < |r| ==> r[i].page == i
    ensures forall i :: 0 <= i < |r| ==> (r[i].current <==> i == currentPage)
  {
    seq(totalPages, i requires 0 <= i < totalPages => Indicator(i, i == currentPage))
  }

  /** How many indicator buttons are marked current. */
  function CurrentCount(row: seq<Indicator>): (count: nat)
  {
    if row == [] then 0
    else CurrentCount(row[..|row| - 1]) + (if row[|row| - 1].current then 1 else 0)
  }

  /** The number of buttons marked current is 1 when the cursor is a page and
      0 otherwise. */
  lemma {:induction false} CurrentCountOfRow(totalPages: nat, currentPage: int)
    ensures CurrentCount(Indicators(totalPages, currentPage))
         == if 0 <= currentPage < totalPages then 1 else 0
  {
    if totalPages > 0 {
      var row := Indicators(totalPages, currentPage);
      assert row[..totalPages - 1] == Indicators(totalPages - 1, currentPage);
      CurrentCountOfRow(totalPages - 1, currentPage);
    }
  }

  /** With the cursor in range, exactly one indicator is marked current. */
  lemma ExactlyOneCurrent(totalPages: nat, currentPage: int)
    requires 0 <= currentPage < totalPages
    ensures CurrentCount(Indicators(totalPages, currentPage)) == 1
  {
    CurrentCountOfRow(totalPages, currentPage);
  }

  /** The shipped list: four testimonials make one page that shows all of
      them, next and previous both stay on that page, and the card keys (the
      authors) are distinct. */
  lemma ShippedCarousel()
    ensures TotalPages(|Shipped|) == 1
    ensures Visible(Shipped, 0) == Shipped
    ensures NextPage(0, TotalPages(|Shipped|)) == 0
    ensures PrevPage(0, TotalPages(|Shipped|)) == 0
    ensures forall i, j :: 0 <= i < j < |Shipped| ==> Shipped[i].author != Shipped[j].author
  {
    assert Shipped[..4] == Shipped;
  }

  /** The carousel's state: the fixed item list and the page cursor. */
  class Carousel<T> {
    const items: seq<T>
    var currentPage: int

    /** The cursor is a page that exists. */
    ghost predicate Valid()
      reads this
    {
      1 <= TotalPages(|items|) && 0 <= currentPage < TotalPages(|items|)
    }

    /** The testimonials currently shown: the cursor's page, a contiguous
        run of at most ItemsPerPage items that is never empty while the
        cursor is a page. */
    function Shown(): (r: seq<T>)
      reads this
      ensures Valid() ==>
        r == items[currentPage * ItemsPerPage .. Min(currentPage * ItemsPerPage + ItemsPerPage, |items|)]
      ensures Valid() ==> 1 <= |r| <= ItemsPerPage
    {
      Visible(items, currentPage)
    }

    /** The carousel opens on page 0, which shows the first items. */
    constructor (items: seq<T>)
      requires 1 <= |items|
      ensures Valid()
      ensures this.items == items && currentPage == 0
      ensures Shown() == items[..Min(ItemsPerPage, |items|)]
    {
      this.items := items;
      currentPage := 0;
    }

    /** The previous button. */
    method Prev()
      requires Valid()
      modifies this
      ensures Valid()
      ensures currentPage == PrevPage(old(currentPage), TotalPages(|items|))
    {
      currentPage := PrevPage(currentPage, TotalPages(|items|));
    }

    /** The next button. */
    method Next()
      requires Valid()
      modifies this
      ensures Valid()
      ensures currentPage == NextPage(old(currentPage), TotalPages(|items|))
    {
      currentPage := NextPage(currentPage, TotalPages(|items|));
    }

    /** A click on the indicator button of `page`; the buttons exist only for
        the pages 0 .. TotalPages - 1 (see Indicators). The new page shows at
        once. */
    method GoTo(page: int)
      requires Valid()
      requires 0 <= page < TotalPages(|items|)
      modifies this
      ensures Valid()
      ensures currentPage == page
      ensures Shown() == items[page * ItemsPerPage .. Min(page * ItemsPerPage + ItemsPerPage, |items|)]
    {
      currentPage := page;
    }
  }
}
