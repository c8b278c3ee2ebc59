/** Lists shown page by page, and the navigation bar that leads through them
    (web/includes/PageGenerator.php:483-507, 558-587, 653-712, 843-904, 991-1043). */
module Pagination {
  import opened Basics

  /** The first and the last row of a window, both included.  The last may lie beyond the end
      of the list. */
  datatype Window = Window(start: int, end: int)

  function Range(a: int, b: int): (r: seq<int>)
    ensures |r| == if a <= b then b - a + 1 else 0
    ensures forall i | 0 <= i < |r| :: r[i] == a + i
  {
    seq(if a <= b then b - a + 1 else 0, i => a + i)
  }

  /** `ceil(count / max)`. */
  function Pages(count: nat, max: nat): (p: nat)
    requires max > 0
    ensures (p - 1) * max < count <= p * max
  {
    (count + max - 1) / max
  }

  /** `floor((end + 1) / max)`. */
  function CurrentPage(end: int, max: nat): int
    requires max > 0
  {
    (end + 1) / max
  }

  /** `makePageLink`. */
  function PageWindow(page: int, max: nat): Window {
    Window(max * page - max, max * page - 1)
  }

  function Next(w: Window, count: nat, max: nat): Option<Window> {
    if w.end + 1 < count then Some(Window(w.end + 1, w.end + max)) else None
  }

  function Previous(w: Window, max: nat): Option<Window> {
    if w.start != 0 || w.start - max > 0 then Some(Window(w.start - max, w.start - 1)) else None
  }

  /** The rows drawn for a window. */
  function Rows(w: Window, count: nat): seq<int> {
    Range(w.start, if w.end < count then w.end else count - 1)
  }

  // ----- windows and pages -----

  lemma QuotientIs(n: int, d: nat, q: int, r: nat)
    requires d > 0 && n == q * d + r && r < d
    ensures n / d == q
  {
    var x := n / d - q;
    assert n == (n / d) * d + n % d;
    assert x * d == (n / d) * d - q * d;
    assert x >= 1 ==> x * d >= d;
    assert x <= -1 ==> x * d + d <= 0;
  }

  /** The window of a page leads back to that page, and the pages divide the rows among
      themselves. */
  lemma PageOfItsWindow(page: int, max: nat, row: int)
    requires max > 0
    ensures CurrentPage(PageWindow(page, max).end, max) == page
    ensures PageWindow(page, max).start <= row <= PageWindow(page, max).end <==> page == row / max + 1
  {
    QuotientIs(max * page, max, page, 0);
    if max * page - max <= row <= max * page - 1 {
      assert (page - 1) * max == max * page - max;
      QuotientIs(row, max, page - 1, row - (max * page - max));
    }
    if page == row / max + 1 {
      assert row == (row / max) * max + row % max;
      assert (page - 1) * max == max * page - max;
    }
  }

  /** "Previous" takes back "Next" exactly when the window has the size the bar counts in. */
  lemma PreviousUndoesNextExactlyWhen(w: Window, count: nat, max: nat)
    requires max > 0 && 0 <= w.start <= w.end && Next(w, count, max).Some?
    ensures Previous(Next(w, count, max).value, max) == Some(w) <==> w.end - w.start + 1 == max
  {
  }

  // ----- walking through the list -----

  /** All windows seen by following "Next". */
  function Walk(w: Window, count: nat, max: nat): (ws: seq<Window>)
    requires max > 0
    ensures ws != [] && ws[0] == w
    decreases count - w.end
  {
    match Next(w, count, max)
    case None => [w]
    case Some(next) => [w] + Walk(next, count, max)
  }

  function AllRows(ws: seq<Window>, count: nat): seq<int> {
    if ws == [] then [] else Rows(ws[0], count) + AllRows(ws[1..], count)
  }

  /** Following "Next" from any window draws every row from there to the end once, in order. */
  lemma {:induction false} WalkDrawsTheRest(w: Window, count: nat, max: nat)
    requires max > 0 && w.start <= w.end + 1 && w.start <= count
    ensures AllRows(Walk(w, count, max), count) == Range(w.start, count - 1)
    decreases count - w.end
  {
    var next := Next(w, count, max);
    if next.None? {
      assert [w][1..] == [];
      assert Rows(w, count) + [] == Rows(w, count);
    } else {
      WalkDrawsTheRest(next.value, count, max);
      assert ([w] + Walk(next.value, count, max))[1..] == Walk(next.value, count, max);
      assert Range(w.start, w.end) + Range(w.end + 1, count - 1) == Range(w.start, count - 1);
    }
  }

  /** How many windows the walk has. */
  lemma {:induction false} WalkLength(w: Window, count: nat, max: nat)
    requires max > 0
    ensures |Walk(w, count, max)| == 1 + if w.end + 1 < count then Pages(count - w.end - 1, max) else 0
    decreases count - w.end
  {
    if w.end + 1 < count {
      var rest := count - w.end - 1;
      WalkLength(Next(w, count, max).value, count, max);
      if max < rest {
        OnePageLess(rest, max);
      } else {
        PagesAre(rest, max, 1);
      }
    }
  }

  lemma PagesAre(count: nat, max: nat, p: nat)
    requires max > 0 && (p - 1) * max < count <= p * max
    ensures Pages(count, max) == p
  {
    var q := Pages(count, max);
  }

  lemma OnePageLess(count: nat, max: nat)
    requires max > 0 && max < count
    ensures Pages(count, max) == 1 + Pages(count - max, max)
  {
    var p := Pages(count - max, max);
    assert (p + 1) * max == p * max + max && (p - 1) * max == p * max - max;
    PagesAre(count, max, p + 1);
  }

  function FirstWindow(count: nat, maxperpage: int): Window {
    Window(0, if count > 0 then maxperpage - 1 else 0)
  }

  /** A list opens on its first page, which has no page before it; an empty one on a window of
      one row that is not there. */
  lemma OpensOnTheFirstPage(count: nat, max: nat)
    requires max > 0
    ensures Previous(FirstWindow(count, max), max) == None
    ensures if count > 0 then FirstWindow(count, max) == PageWindow(1, max) && CurrentPage(max - 1, max) == 1
      else FirstWindow(count, max) == Window(0, 0) && Next(FirstWindow(count, max), count, max) == None
  {
  }

  /** There is a page before exactly the windows that do not start with the first row, and one
      after exactly those that end before the last. */
  lemma LinkedExactlyWhen(w: Window, count: nat, max: nat)
    requires max > 0
    ensures Previous(w, max).Some? <==> w.start != 0
    ensures Next(w, count, max).Some? <==> w.end < count - 1
    ensures Previous(w, max).Some? ==> Previous(w, max).value.end == w.start - 1
    ensures Next(w, count, max).Some? ==> Next(w, count, max).value.start == w.end + 1
    ensures forall v | v in {Previous(w, max), Next(w, count, max)} && v.Some? :: v.value.end - v.value.start + 1 == max
  {
  }

  /** From the first window on: every row once and in order, on ceil(count / max) pages. */
  lemma FirstToLast(count: nat, max: nat)
    requires max > 0
    ensures var ws := Walk(FirstWindow(count, max), count, max);
      && AllRows(ws, count) == Range(0, count - 1)
      && |ws| == if count == 0 then 1 else Pages(count, max)
  {
    var w := FirstWindow(count, max);
    WalkDrawsTheRest(w, count, max);
    WalkLength(w, count, max);
    if count > max {
      OnePageLess(count, max);
    } else if count > 0 {
      PagesAre(count, max, 1);
    }
  }

  /** The number of rows per page may be changed for the first window only.  Every row is
      still drawn once, in order. */
  lemma FirstWindowOfOtherSize(count: nat, maxperpage: nat, max: nat)
    requires max > 0 && maxperpage > 0
    ensures AllRows(Walk(FirstWindow(count, maxperpage), count, max), count) == Range(0, count - 1)
  {
    WalkDrawsTheRest(FirstWindow(count, maxperpage), count, max);
  }

  /** Window after window, the bar knows which page it is on, and that page exists. */
  lemma {:induction false} WalkVisitsPages(page: nat, count: nat, max: nat, k: nat)
    requires max > 0 && 1 <= page <= Pages(count, max) && k < |Walk(PageWindow(page, max), count, max)|
    ensures var w := Walk(PageWindow(page, max), count, max)[k];
      && w == PageWindow(page + k, max) && CurrentPage(w.end, max) == page + k && page + k <= Pages(count, max)
    decreases k
  {
    var w := PageWindow(page, max);
    PageOfItsWindow(page, max, 0);
    if k > 0 {
      assert max * (page + 1) == max * page + max;
      assert Next(w, count, max) == Some(PageWindow(page + 1, max));
      WalkVisitsPages(page + 1, count, max, k - 1);
    }
  }

  // ----- the header -----

  /** The number of pages the header shows, computed on its own; it shows none for a list that
      fits on one page. */
  function HeaderPages(count: nat, maxperpage: nat): nat
    requires maxperpage > 0
  {
    var pages := count / maxperpage;
    if count % maxperpage > 0 && count > maxperpage then pages + 1
    else if count > 0 && pages < 1 then 1
    else pages
  }

  lemma HeaderIsCeil(count: nat, maxperpage: nat)
    requires maxperpage > 0
    ensures HeaderPages(count, maxperpage) == Pages(count, maxperpage)
  {
    PagesFromQuotient(count, maxperpage, count / maxperpage, count % maxperpage);
    if count < maxperpage { QuotientIs(count, maxperpage, 0, count); }
  }

  lemma PagesFromQuotient(count: nat, d: nat, q: nat, r: nat)
    requires d > 0 && count == q * d + r && r < d
    ensures Pages(count, d) == if r > 0 then q + 1 else q
  {
    assert (q + 1) * d == q * d + d && (q - 1) * d == q * d - d;
    PagesAre(count, d, if r > 0 then q + 1 else q);
  }

  /** For one list, header and bar agree exactly when its last row is on the same page at both
      sizes; for an empty one they always do. */
  lemma HeaderAgreesExactlyWhen(count: nat, maxperpage: nat, max: nat)
    requires max > 0 && maxperpage > 0
    ensures HeaderPages(count, maxperpage) == Pages(count, max) <==>
      count == 0 || (count - 1) / maxperpage == (count - 1) / max
  {
    HeaderIsCeil(count, maxperpage);
    if count == 0 {
      PagesAre(0, maxperpage, 0);
      PagesAre(0, max, 0);
    } else {
      PageOfLastRow(count, maxperpage);
      PageOfLastRow(count, max);
    }
  }

  lemma PageOfLastRow(count: nat, max: nat)
    requires count > 0 && max > 0
    ensures Pages(count, max) == (count - 1) / max + 1
  {
    var q, r := (count - 1) / max, (count - 1) % max;
    assert count - 1 == q * max + r;
    assert (q + 1) * max == q * max + max;
    PagesAre(count, max, q + 1);
  }

  /** For every list they agree exactly when the header's size is the bar's. */
  lemma HeaderAlwaysAgreesExactlyWhen(maxperpage: nat, max: nat)
    requires max > 0 && maxperpage > 0
    ensures (forall count: nat :: HeaderPages(count, maxperpage) == Pages(count, max)) <==> maxperpage == max
  {
    forall count: nat ensures HeaderPages(count, maxperpage) == Pages(count, maxperpage) {
      HeaderIsCeil(count, maxperpage);
    }
    var less := if maxperpage < max then maxperpage else max;
    var more := if maxperpage < max then max else maxperpage;
    if less < more {
      PagesAre(less + 1, less, 2);
      PagesAre(less + 1, more, 1);
      assert HeaderPages(less + 1, maxperpage) != Pages(less + 1, max);
    }
  }

  /** They differ for a list of twelve shown ten at a time when the configuration says five. */
  lemma HeaderMayDiffer()
    ensures HeaderPages(12, 10) == 2 && Pages(12, 5) == 3
  {
  }

  /** `page` is what printing `n / d` without decimals gives.  Which of two equally near numbers
      is printed is left open. */
  predicate Nearest(page: int, n: int, d: nat) {
    2 * page * d - d <= 2 * n <= 2 * page * d + d
  }

  /** The header prints the page of a window of its own size. */
  lemma HeaderShowsItsPage(page: int, maxperpage: nat, printed: int)
    requires maxperpage > 0 && Nearest(printed, PageWindow(page, maxperpage).end + 1, maxperpage)
    ensures printed == page
  {
    var d := printed - page;
    assert 2 * printed * maxperpage == 2 * (d * maxperpage) + 2 * (page * maxperpage);
    assert (d - 1) * maxperpage == d * maxperpage - maxperpage;
  }

  // ----- links to pages -----

  /** A link, or the dots between two links. */
  type Item = Option<int>

  function Links(a: int, b: int): (items: seq<Item>)
    ensures |items| == if a <= b then b - a + 1 else 0
    ensures forall i | 0 <= i < |items| :: items[i] == Some(a + i)
  {
    seq(if a <= b then b - a + 1 else 0, i => Some(a + i))
  }

  const DOTS: seq<Item> := [None]

  /** What follows the first three links. */
  function Middle(nb: int, cur: int): seq<Item> {
    if 2 < cur < 5 then Links(4, cur + 2)
    else if 4 < cur < nb - 3 then DOTS + Links(cur - 1, cur + 1)
    else []
  }

  /** What precedes the last three. */
  function NearEnd(nb: int, cur: int): seq<Item> {
    if nb - 3 <= cur <= nb - 2 then Links(nb - 4, nb - 3) else []
  }

  /** `displayPagesNumbers`. */
  function Items(nb: int, cur: int): seq<Item> {
    if nb <= 10 then if nb > 1 then Links(1, nb) else []
    else Links(1, 3) + Middle(nb, cur) + DOTS + NearEnd(nb, cur) + Links(nb - 2, nb)
  }

  function PageNumbers(items: seq<Item>): seq<int> {
    if items == [] then []
    else (if items[0].Some? then [items[0].value] else []) + PageNumbers(items[1..])
  }

  lemma {:induction false} NumbersAppend(a: seq<Item>, b: seq<Item>)
    ensures PageNumbers(a + b) == PageNumbers(a) + PageNumbers(b)
    decreases a
  {
    if a == [] {
      assert a + b == b;
    } else {
      NumbersAppend(a[1..], b);
      assert (a + b)[0] == a[0] && (a + b)[1..] == a[1..] + b;
      Assoc(if a[0].Some? then [a[0].value] else [], PageNumbers(a[1..]), PageNumbers(b));
    }
  }

  lemma {:induction false} NumbersOfLinks(a: int, b: int)
    ensures PageNumbers(Links(a, b)) == Range(a, b)
    decreases b - a
  {
    if a <= b {
      NumbersOfLinks(a + 1, b);
      assert Links(a, b)[1..] == Links(a + 1, b);
      assert Range(a, b) == [a] + Range(a + 1, b);
    }
  }

  function MiddleNumbers(nb: int, cur: int): seq<int> {
    if 2 < cur < 5 then Range(4, cur + 2) else if 4 < cur < nb - 3 then Range(cur - 1, cur + 1) else []
  }

  lemma NumbersOfMiddle(nb: int, cur: int)
    ensures PageNumbers(Middle(nb, cur)) == MiddleNumbers(nb, cur)
  {
    if 2 < cur < 5 {
      NumbersOfLinks(4, cur + 2);
    } else if 4 < cur < nb - 3 {
      NumbersAppend(DOTS, Links(cur - 1, cur + 1));
      assert DOTS[1..] == [];
      NumbersOfLinks(cur - 1, cur + 1);
    }
  }

  lemma NumbersOfItems(nb: int, cur: int)
    requires nb > 10
    ensures PageNumbers(Items(nb, cur)) ==
      Range(1, 3) + MiddleNumbers(nb, cur)
      + (if nb - 3 <= cur <= nb - 2 then Range(nb - 4, nb - 3) else []) + Range(nb - 2, nb)
  {
    NumbersAppend(Links(1, 3) + Middle(nb, cur) + DOTS + NearEnd(nb, cur), Links(nb - 2, nb));
    NumbersAppend(Links(1, 3) + Middle(nb, cur) + DOTS, NearEnd(nb, cur));
    NumbersAppend(Links(1, 3) + Middle(nb, cur), DOTS);
    NumbersAppend(Links(1, 3), Middle(nb, cur));
    assert DOTS[1..] == [];
    NumbersOfMiddle(nb, cur);
    NumbersOfLinks(1, 3);
    NumbersOfLinks(nb - 2, nb);
    NumbersOfLinks(nb - 4, nb - 3);
  }

  lemma IncreasingAppend(a: seq<int>, b: seq<int>)
    requires Increasing(a) && Increasing(b) && forall x, y | x in a && y in b :: x < y
    ensures Increasing(a + b)
  {
    forall i, j | 0 <= i < j < |a + b| ensures (a + b)[i] < (a + b)[j] {
      if i < |a| <= j {
        assert a[i] in a && b[j - |a|] in b;
      }
    }
  }

  lemma AllInRangeOf(a: int, b: int)
    ensures forall x :: x in Range(a, b) <==> a <= x <= b
  {
    forall x | a <= x <= b ensures x in Range(a, b) {
      assert Range(a, b)[x - a] == x;
    }
  }

  lemma MiddleIsBetween(nb: int, cur: int)
    requires nb > 10
    ensures var m := MiddleNumbers(nb, cur);
      && Increasing(m) && |m| <= 3
      && (forall x | x in m :: 3 < x < nb - 2)
      && (cur in m <==> 3 < cur < nb - 3)
  {
    AllInRangeOf(4, cur + 2);
    AllInRangeOf(cur - 1, cur + 1);
  }

  /** With more than ten pages: the links ascend, exist, are nine at most, lead to both ends,
      and to the page that is shown exactly when that page exists. */
  lemma ManyPages(nb: int, cur: int)
    requires nb > 10
    ensures var links := PageNumbers(Items(nb, cur));
      && Increasing(links) && |links| <= 9
      && (forall p | p in links :: 1 <= p <= nb)
      && 1 in links && nb in links
      && (cur in links <==> 1 <= cur <= nb)
  {
    NumbersOfItems(nb, cur);
    NumbersAscend(nb, cur);
    AllInRangeOf(1, 3);
    AllInRangeOf(nb - 2, nb);
    AllInRangeOf(nb - 4, nb - 3);
    MiddleIsBetween(nb, cur);
  }

  lemma NumbersAscend(nb: int, cur: int)
    requires nb > 10
    ensures var near := if nb - 3 <= cur <= nb - 2 then Range(nb - 4, nb - 3) else [];
      Increasing(Range(1, 3) + MiddleNumbers(nb, cur) + near + Range(nb - 2, nb))
  {
    var near := if nb - 3 <= cur <= nb - 2 then Range(nb - 4, nb - 3) else [];
    var m := MiddleNumbers(nb, cur);
    MiddleIsBetween(nb, cur);
    AllInRangeOf(1, 3);
    AllInRangeOf(nb - 2, nb);
    AllInRangeOf(nb - 4, nb - 3);
    IncreasingAppend(Range(1, 3), m);
    assert near == [] || m == [];
    IncreasingAppend(Range(1, 3) + m, near);
    IncreasingAppend(Range(1, 3) + m + near, Range(nb - 2, nb));
  }

  /** With ten pages or fewer all are linked, unless there is only one. */
  lemma FewPages(nb: int, cur: int)
    requires nb <= 10
    ensures PageNumbers(Items(nb, cur)) == if nb > 1 then Range(1, nb) else []
  {
    NumbersOfLinks(1, nb);
  }

  /** Wherever pages are skipped there are dots: two links side by side are neighbours. */
  lemma DotsWherePagesAreSkipped(nb: int, cur: int, i: nat)
    requires i + 1 < |Items(nb, cur)|
    ensures var items := Items(nb, cur);
      items[i].Some? && items[i + 1].Some? ==> items[i + 1].value == items[i].value + 1
  {
  }

  /** All the way through the list, the links of the bar include the page that is shown. */
  lemma CurrentPageIsLinked(count: nat, max: nat, k: nat)
    requires 0 < max < count && k < |Walk(FirstWindow(count, max), count, max)|
    ensures var w := Walk(FirstWindow(count, max), count, max)[k];
      CurrentPage(w.end, max) == k + 1 && k + 1 in PageNumbers(Items(Pages(count, max), k + 1))
  {
    var nb := Pages(count, max);
    OnePageLess(count, max);
    assert FirstWindow(count, max) == PageWindow(1, max);
    WalkVisitsPages(1, count, max, k);
    if nb > 10 {
      ManyPages(nb, k + 1);
    } else {
      FewPages(nb, k + 1);
      AllInRangeOf(1, nb);
    }
  }

  // ----- the widgets -----

  class SimpleNavBar {
    const max: nat
    const itemcount: nat
    const curstart: int
    const curend: int
    const nbpages: nat
    const curpage: int

    ghost predicate Valid() { max > 0 && nbpages == Pages(itemcount, max) && curpage == CurrentPage(curend, max) }

    constructor (w: Window, itemcount: nat, max: Option<nat>, configured: nat)
      requires configured > 0 && (max.Some? ==> max.value > 0)
      ensures Valid() && this.itemcount == itemcount && Window(curstart, curend) == w
      ensures this.max == if max.Some? then max.value else configured
    {
      var m := if max.Some? then max.value else configured;
      this.max, this.itemcount, curstart, curend := m, itemcount, w.start, w.end;
      nbpages, curpage := Pages(itemcount, m), CurrentPage(w.end, m);
    }

    /** The windows behind "Previous" and "Next". */
    method Display() returns (previous: Option<Window>, next: Option<Window>)
      ensures previous == Previous(Window(curstart, curend), max)
      ensures next == Next(Window(curstart, curend), itemcount, max)
    {
      previous, next := None, None;
      if curstart != 0 || curstart - max > 0 {
        previous := Some(Window(curstart - max, curstart - 1));
      }
      if curend + 1 < itemcount {
        next := Some(Window(curend + 1, curend + max));
      }
    }

    /** The links from page `first` to page `last`, those up to `skip` left out. */
    method MakeLinks(first: int, last: int, skip: int) returns (items: seq<Item>)
      ensures items == Links(if first > skip then first else skip + 1, last)
    {
      items := [];
      var i := first;
      while i <= last
        invariant first <= i
        invariant items == Links(if first > skip then first else skip + 1, i - 1)
        invariant if first <= last then i <= last + 1 else i == first
      {
        if i > skip { items := items + [Some(i)]; }
        i := i + 1;
      }
      assert first <= last ==> i - 1 == last;
      assert first > last ==> items == [];
    }

    method DisplayPagesNumbers() returns (items: seq<Item>)
      ensures items == Items(nbpages, curpage)
    {
      items := [];
      if nbpages <= 10 {
        if nbpages > 1 { items := MakeLinks(1, nbpages, 0); }
        return;
      }
      items := MakeLinks(1, 3, 0);
      if curpage > 2 && curpage < 5 {
        var more := MakeLinks(curpage, curpage + 2, 3);
        items := items + more;
      } else if curpage > 4 && curpage < nbpages - 3 {
        var more := MakeLinks(curpage - 1, curpage + 1, 0);
        items := items + (DOTS + more);
      }
      assert items == Links(1, 3) + Middle(nbpages, curpage);
      items := items + DOTS;
      if curpage <= nbpages - 2 && curpage >= nbpages - 3 {
        var more := MakeLinks(nbpages - 4, nbpages - 3, 0);
        items := items + more;
      }
      assert items == Links(1, 3) + Middle(nbpages, curpage) + DOTS + NearEnd(nbpages, curpage);
      var more := MakeLinks(nbpages - 2, nbpages, 0);
      items := items + more;
    }
  }

  class ListInfos {
    const count: nat
    var maxperpage: nat
    var start: int
    var end: int

    /** `initVar`: `window` and `perPage` are what the request says. */
    constructor (count: nat, window: Option<Window>, perPage: Option<nat>, configured: nat)
      ensures this.count == count
      ensures maxperpage == if perPage.Some? then perPage.value else configured
      ensures Window(start, end) == if window.Some? then window.value else FirstWindow(count, maxperpage)
    {
      this.count := count;
      var m := if perPage.Some? then perPage.value else configured;
      maxperpage := m;
      if window.None? {
        start := 0;
        end := if count > 0 then m - 1 else 0;
      } else {
        start, end := window.value.start, window.value.end;
      }
    }

    /** The current page and the number of pages in the header, shown for a list longer than a
        page. */
    method DrawHeader() returns (shown: Option<(int, int)>)
      requires maxperpage > 0
      ensures shown.Some? <==> count > maxperpage
      ensures shown.Some? ==> Nearest(shown.value.0, end + 1, maxperpage) && shown.value.1 == Pages(count, maxperpage)
    {
      if count <= maxperpage { return None; }
      var current := (2 * (end + 1) + maxperpage) / (2 * maxperpage);
      assert 2 * (end + 1) + maxperpage == current * (2 * maxperpage) + (2 * (end + 1) + maxperpage) % (2 * maxperpage);
      assert current * (2 * maxperpage) == 2 * current * maxperpage;
      var n := count / maxperpage;
      if count % maxperpage > 0 && count > maxperpage {
        n := n + 1;
      } else if count > 0 && n < 1 {
        n := 1;
      } else if n < 0 {
        n := 0;
      }
      HeaderIsCeil(count, maxperpage);
      return Some((current, n));
    }

    /** The rows that `drawTable` draws. */
    method DrawTable() returns (rows: seq<int>)
      ensures rows == Rows(Window(start, end), count)
    {
      rows := [];
      var idx := start;
      while idx < count && idx <= end
        invariant start <= idx && rows == Range(start, idx - 1)
        invariant idx > start ==> idx <= count && idx <= end + 1
        decreases count - idx
      {
        rows := rows + [idx];
        idx := idx + 1;
      }
    }
  }
}
