// Paging and the cursor of the long select prompt (getSelectListRenderers in
// packages/cli/interactive.ts and packages/cli/select-list.ts). An option is as tall as its
// title row and its detail rows.

module Pager {
  import opened Common

  datatype Choice = Choice(title: string, value: string, details: seq<string>)

  function Height(option: Choice): nat {
    |option.details| + 1
  }

  function Size(page: seq<Choice>): nat {
    if page == [] then 0 else Size(page[..|page| - 1]) + Height(page[|page| - 1])
  }

  const VERTICAL_MARGIN: int := 6

  /** The state of the page loop: the finished pages and the one being filled. */
  datatype Pages = Pages(pages: seq<seq<Choice>>, current: seq<Choice>)

  /** One iteration of the loop, with `limit` rows on a page. */
  function Add(before: Pages, option: Choice, limit: int): Pages {
    if Size(before.current) + Height(option) > limit
    then Pages(before.pages + [before.current], [option])
    else Pages(before.pages, before.current + [option])
  }

  /** The loop's state after the first `n` options. */
  function Fill(options: seq<Choice>, limit: int, n: nat): Pages
    requires n <= |options|
  {
    if n == 0 then Pages([], []) else Add(Fill(options, limit, n - 1), options[n - 1], limit)
  }

  function Paginate(options: seq<Choice>, limit: int): seq<seq<Choice>> {
    var filled := Fill(options, limit, |options|);
    if Size(filled.current) != 0 then filled.pages + [filled.current] else filled.pages
  }

  method BuildPages(options: seq<Choice>, rows: int) returns (pages: seq<seq<Choice>>)
    ensures pages == Paginate(options, rows - VERTICAL_MARGIN)
  {
    pages := [];
    var size, current: seq<Choice> := 0, [];
    for i := 0 to |options|
      invariant Fill(options, rows - VERTICAL_MARGIN, i) == Pages(pages, current)
      invariant size == Size(current)
    {
      var option := options[i];
      var optionHeight := |option.details| + 1;
      SizeSnoc(current, option);
      if size + optionHeight > rows - VERTICAL_MARGIN {
        pages := pages + [current];
        size, current := optionHeight, [option];
        continue;
      }
      size := size + optionHeight;
      current := current + [option];
    }
    if size != 0 {
      pages := pages + [current];
    }
  }

  lemma SizeSnoc(page: seq<Choice>, option: Choice)
    ensures Size(page + [option]) == Size(page) + Height(option)
    ensures Size([option]) == Height(option)
  {
    assert (page + [option])[..|page|] == page;
    assert [option][..0] == [] && Size([]) == 0;
  }

  lemma FlattenSnoc<T>(lists: seq<seq<T>>, last: seq<T>)
    ensures Flatten(lists + [last]) == Flatten(lists) + last
  {
    assert (lists + [last])[..|lists|] == lists;
  }

  lemma {:induction false} SizeZero(page: seq<Choice>)
    ensures Size(page) == 0 <==> page == []
    ensures |page| <= Size(page)
  {
    if page == [] {
    } else {
      SizeZero(page[..|page| - 1]);
    }
  }

  function All(f: Pages): seq<Choice> {
    Flatten(f.pages) + f.current
  }

  lemma AddConserves(before: Pages, option: Choice, limit: int)
    ensures All(Add(before, option, limit)) == All(before) + [option]
    ensures Add(before, option, limit).current != []
  {
    FlattenSnoc(before.pages, before.current);
  }

  lemma {:induction false} FillConserves(options: seq<Choice>, limit: int, n: nat)
    requires n <= |options|
    ensures All(Fill(options, limit, n)) == options[..n]
    ensures Fill(options, limit, n).current == [] <==> n == 0
  {
    if n == 0 {
    } else {
      FillConserves(options, limit, n - 1);
      assert options[..n] == options[..n - 1] + [options[n - 1]];
      AddConserves(Fill(options, limit, n - 1), options[n - 1], limit);
    }
  }

  /** A page is over the limit only if it holds a single option that is. */
  ghost predicate Acceptable(page: seq<Choice>, limit: int) {
    Size(page) <= limit || |page| <= 1
  }

  ghost predicate AllAcceptable(f: Pages, limit: int) {
    Acceptable(f.current, limit) && forall i :: 0 <= i < |f.pages| ==> Acceptable(f.pages[i], limit)
  }

  lemma {:induction false} FillFits(options: seq<Choice>, limit: int, n: nat)
    requires n <= |options|
    ensures AllAcceptable(Fill(options, limit, n), limit)
  {
    if n == 0 {
    } else {
      FillFits(options, limit, n - 1);
      AddFits(Fill(options, limit, n - 1), options[n - 1], limit);
    }
  }

  lemma AddFits(before: Pages, option: Choice, limit: int)
    requires AllAcceptable(before, limit)
    ensures AllAcceptable(Add(before, option, limit), limit)
  {
    SizeSnoc(before.current, option);
    var after := Add(before, option, limit);
    assert Acceptable(after.current, limit);
    forall i | 0 <= i < |after.pages| ensures Acceptable(after.pages[i], limit) {
      assert after.pages[i] == if i < |before.pages| then before.pages[i] else before.current;
    }
  }

  ghost predicate EmptyFirst(pages: seq<seq<Choice>>) {
    pages != [] && pages[0] == []
  }

  ghost predicate NoLaterEmpty(pages: seq<seq<Choice>>) {
    forall i :: 0 < i < |pages| ==> pages[i] != []
  }

  lemma AddKeepsFirst(before: Pages, option: Choice, limit: int)
    requires before.current != [] && NoLaterEmpty(before.pages)
    ensures NoLaterEmpty(Add(before, option, limit).pages)
    ensures EmptyFirst(Add(before, option, limit).pages) <==> EmptyFirst(before.pages)
  {
  }

  lemma {:induction false} FillEmptyFirst(options: seq<Choice>, limit: int, n: nat)
    requires 0 < n <= |options|
    ensures EmptyFirst(Fill(options, limit, n).pages) <==> Height(options[0]) > limit
    ensures NoLaterEmpty(Fill(options, limit, n).pages)
  {
    if n == 1 {
      assert Fill(options, limit, 0) == Pages([], []);
    } else {
      FillEmptyFirst(options, limit, n - 1);
      FillConserves(options, limit, n - 1);
      AddKeepsFirst(Fill(options, limit, n - 1), options[n - 1], limit);
    }
  }

  /** Of the pages, only the first can be empty, and it is exactly when the first option is over
      the limit. */
  lemma OnlyFirstPageEmpty(options: seq<Choice>, limit: int)
    requires options != []
    ensures Paginate(options, limit) != []
    ensures Paginate(options, limit)[0] == [] <==> Height(options[0]) > limit
    ensures forall i :: 0 < i < |Paginate(options, limit)| ==> Paginate(options, limit)[i] != []
  {
    var f := Fill(options, limit, |options|);
    FillEmptyFirst(options, limit, |options|);
    FillConserves(options, limit, |options|);
    SizeZero(f.current);
  }

  ghost predicate FitsEach(options: seq<Choice>, limit: int) {
    forall option :: option in options ==> Height(option) <= limit
  }

  /** A split of the options into consecutive pages within the limit. */
  ghost predicate ValidSplit(options: seq<Choice>, limit: int, split: seq<seq<Choice>>) {
    Flatten(split) == options && forall i :: 0 <= i < |split| ==> Size(split[i]) <= limit
  }

  lemma PaginateConserves(options: seq<Choice>, limit: int)
    ensures Flatten(Paginate(options, limit)) == options
    ensures forall i :: 0 <= i < |Paginate(options, limit)| ==> Acceptable(Paginate(options, limit)[i], limit)
  {
    FillConserves(options, limit, |options|);
    FillFits(options, limit, |options|);
    var f := Fill(options, limit, |options|);
    FlattenSnoc(f.pages, f.current);
    SizeZero(f.current);
    assert f.current == [] ==> Flatten(f.pages) + f.current == Flatten(f.pages);
  }

  /** When each option fits on a page, the pages are a split into non-empty pages within the
      limit. */
  lemma PagesAreValid(options: seq<Choice>, limit: int)
    requires FitsEach(options, limit)
    ensures ValidSplit(options, limit, Paginate(options, limit))
    ensures forall i :: 0 <= i < |Paginate(options, limit)| ==> Paginate(options, limit)[i] != []
  {
    PaginateConserves(options, limit);
    var pages := Paginate(options, limit);
    forall i | 0 <= i < |pages| ensures Size(pages[i]) <= limit && pages[i] != [] {
      PageFits(options, limit, i);
    }
  }

  lemma PageFits(options: seq<Choice>, limit: int, i: nat)
    requires FitsEach(options, limit) && i < |Paginate(options, limit)|
    requires Flatten(Paginate(options, limit)) == options && Acceptable(Paginate(options, limit)[i], limit)
    ensures Size(Paginate(options, limit)[i]) <= limit && Paginate(options, limit)[i] != []
  {
    var pages, f := Paginate(options, limit), Fill(options, limit, |options|);
    if options != [] {
      FillEmptyFirst(options, limit, |options|);
    }
    SizeZero(f.current);
    assert options != [] ==> options[0] in options;
    SizeZero(pages[i]);
    if |pages[i]| == 1 {
      SingleOption(pages, i);
    }
  }

  lemma SingleOption(pages: seq<seq<Choice>>, i: nat)
    requires i < |pages| && |pages[i]| == 1
    ensures Size(pages[i]) == Height(pages[i][0]) && pages[i][0] in Flatten(pages)
  {
    FlattenMember(pages, pages[i][0]);
    assert pages[i] == [pages[i][0]];
    SizeSnoc([], pages[i][0]);
  }

  ghost predicate Ahead(f: Pages, split: seq<seq<Choice>>) {
    |f.pages| < |split| && (|split| == |f.pages| + 1 ==> |split[|split| - 1]| >= |f.current|)
  }

  /** Filling each page before starting the next never falls behind: any split within the
      limit has more pages than the greedy one has finished, and if it has just one more, its
      last page holds at least what is on the greedy one's current page. */
  lemma {:induction false} GreedyStaysAhead(options: seq<Choice>, limit: int, n: nat, split: seq<seq<Choice>>)
    requires 0 < n <= |options| && ValidSplit(options[..n], limit, split)
    ensures Ahead(Fill(options, limit, n), split)
    decreases n, |split|
  {
    var front, last := split[..|split| - 1], split[|split| - 1];
    if last == [] {
      WithoutEmptyPage(options[..n], limit, split);
      GreedyStaysAhead(options, limit, n, front);
    } else {
      ShorterSplit(options, limit, n, split);
      if n > 1 {
        GreedyStaysAhead(options, limit, n - 1, front + [last[..|last| - 1]]);
      }
      OneMoreOption(options, limit, n, split);
    }
  }

  lemma OneMoreOption(options: seq<Choice>, limit: int, n: nat, split: seq<seq<Choice>>)
    requires 0 < n <= |options| && ValidSplit(options[..n], limit, split) && split[|split| - 1] != []
    requires n > 1 ==> Ahead(Fill(options, limit, n - 1), split[..|split| - 1] + [split[|split| - 1][..|split[|split| - 1]| - 1]])
    ensures Ahead(Fill(options, limit, n), split)
  {
    var front, last := split[..|split| - 1], split[|split| - 1];
    var rest := last[..|last| - 1];
    ShorterSplit(options, limit, n, split);
    if n == 1 {
      FirstPage(options, limit, rest);
    } else {
      FillConserves(options, limit, n - 1);
      LastPageGrows(Fill(options, limit, n - 1), options[n - 1], limit, front, rest);
      assert split == front + [last];
    }
  }

  lemma WithoutEmptyPage(options: seq<Choice>, limit: int, split: seq<seq<Choice>>)
    requires options != [] && ValidSplit(options, limit, split) && split[|split| - 1] == []
    ensures ValidSplit(options, limit, split[..|split| - 1])
  {
    var front := split[..|split| - 1];
    assert Flatten(split) == Flatten(front) + [];
    assert forall i :: 0 <= i < |front| ==> front[i] == split[i];
  }

  lemma FirstPage(options: seq<Choice>, limit: int, rest: seq<Choice>)
    requires 1 <= |options| && Size(rest + [options[0]]) <= limit
    ensures Fill(options, limit, 1) == Pages([], [options[0]])
  {
    SizeSnoc(rest, options[0]);
    assert Fill(options, limit, 0) == Pages([], []);
  }

  lemma ShorterSplit(options: seq<Choice>, limit: int, n: nat, split: seq<seq<Choice>>)
    requires 0 < n <= |options| && ValidSplit(options[..n], limit, split) && split[|split| - 1] != []
    ensures var front, last := split[..|split| - 1], split[|split| - 1];
      && last == last[..|last| - 1] + [options[n - 1]] && Size(last) <= limit
      && Flatten(front) + last[..|last| - 1] == options[..n - 1]
      && ValidSplit(options[..n - 1], limit, front + [last[..|last| - 1]])
  {
    var front, last := split[..|split| - 1], split[|split| - 1];
    var rest := last[..|last| - 1];
    assert (Flatten(front) + last)[n - 1] == last[|last| - 1];
    FlattenSnoc(front, rest);
    assert Flatten(front) + rest == options[..n - 1];
    SizeSnoc(rest, options[n - 1]);
    forall i | 0 <= i < |front + [rest]| ensures Size((front + [rest])[i]) <= limit {
      assert i < |front| ==> (front + [rest])[i] == split[i];
    }
  }

  lemma LastPageGrows(before: Pages, option: Choice, limit: int, front: seq<seq<Choice>>, rest: seq<Choice>)
    requires Flatten(front) + rest == All(before) && Size(rest + [option]) <= limit
    requires Ahead(before, front + [rest]) && before.current != []
    ensures Ahead(Add(before, option, limit), front + [rest + [option]])
  {
    SizeSnoc(rest, option);
    if |front| == |before.pages| {
      SuffixSize(All(before), before.current, rest);
    }
  }

  /** Of two ends of the same list, the longer one is at least as tall. */
  lemma {:induction false} SuffixSize(options: seq<Choice>, a: seq<Choice>, b: seq<Choice>)
    requires |a| <= |b| <= |options|
    requires a == options[|options| - |a|..] && b == options[|options| - |b|..]
    ensures Size(a) <= Size(b)
  {
    if a == [] {
    } else {
      var init := options[..|options| - 1];
      assert a[..|a| - 1] == init[|init| - (|a| - 1)..];
      assert b[..|b| - 1] == init[|init| - (|b| - 1)..];
      SuffixSize(init, a[..|a| - 1], b[..|b| - 1]);
      assert a[|a| - 1] == b[|b| - 1];
    }
  }

  /** No way of cutting the options into consecutive pages within the limit needs fewer pages. */
  lemma FewestPages(options: seq<Choice>, limit: int, split: seq<seq<Choice>>)
    requires ValidSplit(options, limit, split)
    ensures |Paginate(options, limit)| <= |split|
  {
    if options != [] {
      assert options[..|options|] == options;
      GreedyStaysAhead(options, limit, |options|, split);
    }
  }

  // ---------------------------------------------------------------- finding the cursor

  function PageStart(pages: seq<seq<Choice>>, i: nat): nat
    requires i <= |pages|
  {
    |Flatten(pages[..i])|
  }

  /** The cursor lies on page `i`. */
  predicate OnPage(pages: seq<seq<Choice>>, cursor: int, i: nat)
    requires i < |pages|
  {
    PageStart(pages, i) <= cursor < PageStart(pages, i) + |pages[i]|
  }

  datatype View = View(page: seq<Choice>, smallCursor: int, isFirstPage: bool, isLastPage: bool)

  function ViewOf(pages: seq<seq<Choice>>, cursor: int, i: nat): View
    requires i < |pages|
  {
    View(pages[i], cursor - PageStart(pages, i), i == 0, i == |pages| - 1)
  }

  /** The loop that chooses the page to show: the page the cursor lies on, if there is one. */
  method ChoosePage(pages: seq<seq<Choice>>, cursor: int) returns (v: View)
    ensures forall i :: 0 <= i < |pages| && OnPage(pages, cursor, i) ==> v == ViewOf(pages, cursor, i)
    ensures (forall i :: 0 <= i < |pages| ==> !OnPage(pages, cursor, i)) ==> v == View([], 0, true, false)
  {
    v := View([], 0, true, false);
    var len := 0;
    for i := 0 to |pages|
      invariant len == PageStart(pages, i) && v == View([], 0, true, false)
      invariant forall k :: 0 <= k < i ==> !OnPage(pages, cursor, k)
    {
      var pageIter := pages[i];
      if cursor >= len && |pageIter| + len > cursor {
        v := View(pageIter, cursor - len, i == 0, i == |pages| - 1);
        assert OnPage(pages, cursor, i);
        OnlyPage(pages, cursor, i);
        return;
      }
      FlattenSnoc(pages[..i], pages[i]);
      assert pages[..i + 1] == pages[..i] + [pages[i]];
      len := len + |pageIter|;
    }
  }

  /** What the renderer shows of the options for a cursor within them: the one page that the
      cursor is on. The small cursor points to the very option, and the page fits if every option
      does. */
  method PageToShow(options: seq<Choice>, rows: int, cursor: nat) returns (v: View)
    requires cursor < |options|
    ensures 0 <= v.smallCursor < |v.page| && v.page[v.smallCursor] == options[cursor]
    ensures FitsEach(options, rows - VERTICAL_MARGIN) ==> Size(v.page) <= rows - VERTICAL_MARGIN
    ensures var pages := Paginate(options, rows - VERTICAL_MARGIN);
      exists i :: 0 <= i < |pages| && OnPage(pages, cursor, i) && v == ViewOf(pages, cursor, i)
    ensures Shows(v, options, rows - 6, cursor)
  {
    var pages := BuildPages(options, rows);
    v := ChoosePage(pages, cursor);
    ghost var i := PageShown(options, rows - VERTICAL_MARGIN, cursor);
    PageInOptions(options, rows - VERTICAL_MARGIN, cursor, i);
  }

  /** The page in terms of the options: a stretch of them around the cursor, marked as the last
      page if and only if the options end with it, and as the first one if and only if they begin
      with it and the first option is not too tall. */
  ghost predicate Shows(v: View, options: seq<Choice>, limit: int, cursor: nat)
    requires cursor < |options|
  {
    && 0 <= v.smallCursor <= cursor && cursor - v.smallCursor + |v.page| <= |options|
    && v.page == options[cursor - v.smallCursor..cursor - v.smallCursor + |v.page|]
    && (v.isLastPage <==> cursor - v.smallCursor + |v.page| == |options|)
    && (v.isFirstPage <==> cursor == v.smallCursor && |options[0].details| + 1 <= limit)
  }

  lemma PageInOptions(options: seq<Choice>, limit: int, cursor: nat, i: nat)
    requires cursor < |options| && i < |Paginate(options, limit)| && OnPage(Paginate(options, limit), cursor, i)
    ensures Shows(ViewOf(Paginate(options, limit), cursor, i), options, limit, cursor)
  {
    var pages := Paginate(options, limit);
    PaginateConserves(options, limit);
    OnlyFirstPageEmpty(options, limit);
    PageIsStretch(pages, i);
    EndsWithLast(pages, i);
    BeginsWithFirst(pages, i);
  }

  lemma PageIsStretch(pages: seq<seq<Choice>>, i: nat)
    requires i < |pages|
    ensures PageStart(pages, i) + |pages[i]| <= |Flatten(pages)|
    ensures Flatten(pages)[PageStart(pages, i)..PageStart(pages, i) + |pages[i]|] == pages[i]
  {
    PageEnds(pages, i);
    forall k | 0 <= k < |pages[i]| ensures Flatten(pages)[PageStart(pages, i) + k] == pages[i][k] {
      PageAt(pages, i, k);
    }
  }

  lemma EndsWithLast(pages: seq<seq<Choice>>, i: nat)
    requires i < |pages| && forall k :: 0 < k < |pages| ==> pages[k] != []
    ensures PageStart(pages, i) + |pages[i]| == |Flatten(pages)| <==> i == |pages| - 1
  {
    var last := |pages| - 1;
    FlattenSnoc(pages[..last], pages[last]);
    assert pages == pages[..last] + [pages[last]];
    if i < last {
      PagesApart(pages);
    }
  }

  lemma BeginsWithFirst(pages: seq<seq<Choice>>, i: nat)
    requires i < |pages|
    ensures i == 0 ==> PageStart(pages, i) == 0
    ensures i > 0 && pages[0] != [] ==> PageStart(pages, i) > 0
  {
    if i > 0 {
      PagesApart(pages);
      assert pages[..0] == [];
    }
  }

  lemma PageShown(options: seq<Choice>, limit: int, cursor: nat) returns (i: nat)
    requires cursor < |options|
    ensures i < |Paginate(options, limit)| && OnPage(Paginate(options, limit), cursor, i)
    ensures var page, k := Paginate(options, limit)[i], cursor - PageStart(Paginate(options, limit), i);
      k < |page| && page[k] == options[cursor] && (FitsEach(options, limit) ==> Size(page) <= limit)
  {
    var pages := Paginate(options, limit);
    PaginateConserves(options, limit);
    i := PageOf(pages, cursor);
    PageAt(pages, i, cursor - PageStart(pages, i));
    if FitsEach(options, limit) {
      PageFits(options, limit, i);
    }
  }

  lemma OnlyPage(pages: seq<seq<Choice>>, cursor: int, i: nat)
    requires i < |pages| && OnPage(pages, cursor, i)
    ensures forall j :: 0 <= j < |pages| && OnPage(pages, cursor, j) ==> j == i
  {
    PagesApart(pages);
  }

  lemma PagesApart(pages: seq<seq<Choice>>)
    ensures forall i, j :: 0 <= i < j < |pages| ==> PageStart(pages, i) + |pages[i]| <= PageStart(pages, j)
  {
    forall i, j | 0 <= i < j < |pages| ensures PageStart(pages, i) + |pages[i]| <= PageStart(pages, j) {
      PageEnds(pages[..j], i);
      assert pages[..j][..i] == pages[..i];
    }
  }

  /** A cursor within the options lies on exactly one page, where it points to its option. */
  lemma {:induction false} LookupInvertsPaging(pages: seq<seq<Choice>>, cursor: nat)
    requires cursor < |Flatten(pages)|
    ensures exists i :: 0 <= i < |pages| && OnPage(pages, cursor, i)
    ensures forall i :: 0 <= i < |pages| && OnPage(pages, cursor, i) ==>
      pages[i][cursor - PageStart(pages, i)] == Flatten(pages)[cursor]
    ensures forall i, j :: 0 <= i < j < |pages| ==> !(OnPage(pages, cursor, i) && OnPage(pages, cursor, j))
  {
    var at := PageOf(pages, cursor);
    forall i | 0 <= i < |pages| && OnPage(pages, cursor, i)
      ensures pages[i][cursor - PageStart(pages, i)] == Flatten(pages)[cursor]
    {
      PageAt(pages, i, cursor - PageStart(pages, i));
    }
    PagesApart(pages);
  }

  lemma {:induction false} PageOf(pages: seq<seq<Choice>>, cursor: nat) returns (i: nat)
    requires cursor < |Flatten(pages)|
    ensures i < |pages| && OnPage(pages, cursor, i)
  {
    var init := pages[..|pages| - 1];
    if cursor < |Flatten(init)| {
      i := PageOf(init, cursor);
      assert init[..i] == pages[..i];
    } else {
      i := |init|;
    }
  }

  lemma {:induction false} PageEnds(pages: seq<seq<Choice>>, i: nat)
    requires i < |pages|
    ensures PageStart(pages, i) + |pages[i]| <= |Flatten(pages)|
  {
    var init := pages[..|pages| - 1];
    if i == |init| {
    } else {
      PageEnds(init, i);
      assert init[..i] == pages[..i];
    }
  }

  lemma {:induction false} PageAt(pages: seq<seq<Choice>>, i: nat, k: nat)
    requires i < |pages| && k < |pages[i]|
    ensures PageStart(pages, i) + k < |Flatten(pages)| && Flatten(pages)[PageStart(pages, i) + k] == pages[i][k]
  {
    var init := pages[..|pages| - 1];
    if i == |init| {
    } else {
      PageAt(init, i, k);
      assert init[..i] == pages[..i];
    }
  }

  // ---------------------------------------------------------------- the prompt

  datatype Key = Left | Up | Down | Right | Other

  /** One step of the wrapping cursor over `n` options. */
  function Move(cursor: nat, n: nat, key: Key): nat
    requires cursor < n
  {
    match key
    case Left | Up => if cursor == 0 then n - 1 else cursor - 1
    case Down | Right => if cursor == n - 1 then 0 else cursor + 1
    case Other => cursor
  }

  /** The first option with the initial value, the first option if there is none. */
  function InitialCursor(options: seq<Choice>, initial: Option<string>, from: nat): nat
    requires from <= |options|
    decreases |options| - from
  {
    if from == |options| then 0
    else if initial == Some(options[from].value) then from
    else InitialCursor(options, initial, from + 1)
  }

  class SelectRefreshablePrompt {
    var options: seq<Choice>
    var cursor: nat
    var value: string

    /** The cursor points into the options and the value is that of the option there. */
    ghost predicate Valid()
      reads this
    {
      cursor < |options| && value == options[cursor].value
    }

    constructor (options: seq<Choice>, initialValue: Option<string>)
      requires options != []
      ensures Valid() && this.options == options && cursor == InitialCursor(options, initialValue, 0)
      ensures forall i :: 0 <= i < cursor ==> Some(options[i].value) != initialValue
      ensures Some(options[cursor].value) == initialValue
        || (cursor == 0 && forall i :: 0 <= i < |options| ==> Some(options[i].value) != initialValue)
    {
      this.options := options;
      this.cursor := InitialCursor(options, initialValue, 0);
      InitialCursorInRange(options, initialValue, 0);
      this.value := options[InitialCursor(options, initialValue, 0)].value;
    }

    /** The handler of cursor keys. */
    method OnCursor(key: Key)
      requires Valid()
      modifies this
      ensures Valid() && options == old(options) && cursor == Move(old(cursor), |options|, key)
    {
      match key {
        case Left | Up => cursor := if cursor == 0 then |options| - 1 else cursor - 1;
        case Down | Right => cursor := if cursor == |options| - 1 then 0 else cursor + 1;
        case Other =>
      }
      value := options[cursor].value;
    }

    /** What happens when a refresh delivers its options. With no options at all the value
        cannot be changed, and the prompt is left with a cursor that points nowhere. */
    method OnRefreshed(newOptions: seq<Choice>)
      modifies this
      ensures options == newOptions && cursor == 0
      ensures Valid() <==> newOptions != []
      ensures newOptions == [] ==> value == old(value)
    {
      options := newOptions;
      cursor := 0;
      if |newOptions| > 0 {
        value := options[cursor].value;
      }
    }
  }

  lemma {:induction false} InitialCursorInRange(options: seq<Choice>, initial: Option<string>, from: nat)
    requires from <= |options| && options != []
    ensures InitialCursor(options, initial, from) < |options|
    ensures forall i :: from <= i < InitialCursor(options, initial, from) ==> Some(options[i].value) != initial
    ensures (exists i :: from <= i < |options| && Some(options[i].value) == initial) ==>
      Some(options[InitialCursor(options, initial, from)].value) == initial
    ensures (forall i :: from <= i < |options| ==> Some(options[i].value) != initial) ==> InitialCursor(options, initial, from) == 0
    decreases |options| - from
  {
    if from == |options| {
    } else {
      InitialCursorInRange(options, initial, from + 1);
    }
  }

  datatype Event = KeyPressed(key: Key) | Refreshed(options: seq<Choice>)

  datatype Prompt = Prompt(options: seq<Choice>, cursor: int)

  /** The prompt after a run of events. */
  function After(p: Prompt, events: seq<Event>): Prompt {
    if events == [] then p
    else
      var q := After(p, events[..|events| - 1]);
      match events[|events| - 1]
      case KeyPressed(key) => if 0 <= q.cursor < |q.options| then Prompt(q.options, Move(q.cursor, |q.options|, key)) else q
      case Refreshed(options) => Prompt(options, 0)
  }

  /** Steps forward minus steps back. */
  function Steps(events: seq<Event>): int {
    if events == [] then 0
    else
      Steps(events[..|events| - 1]) +
      match events[|events| - 1]
      case KeyPressed(Left) | KeyPressed(Up) => -1
      case KeyPressed(Down) | KeyPressed(Right) => 1
      case _ => 0
  }

  /** Over any run of keys and refreshes that bring options, the cursor stays within the
      options; and as long as only keys are pressed it is where counting them around the
      list says. */
  lemma {:induction false} CursorInRange(p: Prompt, events: seq<Event>)
    requires 0 <= p.cursor < |p.options|
    requires forall i :: 0 <= i < |events| && events[i].Refreshed? ==> events[i].options != []
    ensures 0 <= After(p, events).cursor < |After(p, events).options|
    ensures (forall i :: 0 <= i < |events| ==> events[i].KeyPressed?) ==>
      After(p, events) == Prompt(p.options, (p.cursor + Steps(events)) % |p.options|)
  {
    var n := |p.options|;
    if events == [] {
      WrapOnce(p.cursor, n);
    } else {
      var init := events[..|events| - 1];
      CursorInRange(p, init);
      WrapOnce(p.cursor + Steps(init), n);
    }
  }

  lemma WrapOnce(x: int, n: nat)
    requires n > 0
    ensures 0 <= x < n ==> x % n == x
    ensures (x + 1) % n == if x % n == n - 1 then 0 else x % n + 1
    ensures (x - 1) % n == if x % n == 0 then n - 1 else x % n - 1
  {
    var q, r := x / n, x % n;
    assert x == q * n + r;
    Remainder(x + 1, n, if r == n - 1 then q + 1 else q, if r == n - 1 then 0 else r + 1);
    Remainder(x - 1, n, if r == 0 then q - 1 else q, if r == 0 then n - 1 else r - 1);
  }

  lemma Remainder(x: int, n: nat, q: int, r: int)
    requires 0 <= r < n && x == q * n + r
    ensures x % n == r
  {
    var p := x / n;
    assert x == p * n + x % n;
    assert (q - p) * n == x % n - r;
    assert q - p >= 1 ==> (q - p) * n >= n;
    assert q - p <= -1 ==> (q - p) * n + n <= 0;
  }
}
