/** What a paginated body is: visible pages that fit, separated by white space,
    with nothing lost, few splits inside words, and a bounded number of pages. */
module PaginationLaws {
  import opened Text
  import opened Encoding
  import opened Pagination

  /** Some page of `runes` begins at `at`, has `fit` runes of room and takes
      `n` of them. */
  ghost predicate IsPage(runes: string, at: nat, fit: nat, n: nat, reserve: int) {
    && at + fit <= |runes| && 0 < n <= fit && !IsSpace(runes[at])
    && fit == FitCount(Window(runes, at), reserve)
    && n == Cut(runes, at, reserve)
  }

  lemma CutBounds(runes: string, at: nat, reserve: int)
    requires at <= |runes|
    ensures var fit, n := FitCount(Window(runes, at), reserve), Cut(runes, at, reserve);
            n <= fit <= |runes| - at && (n == 0 <==> fit == 0) && fit / 3 <= n
  {
    hide FitCount, BreakAt;
    BreakBounds(Window(runes, at)[..FitCount(Window(runes, at), reserve)]);
  }

  /** Where page `k` begins: at the first visible rune after the cut that ends the
      page before it. */
  function PageStart(runes: string, reserve: int, k: nat): (at: nat)
    ensures at <= |runes|
  {
    if k == 0 then Visible(runes, 0)
    else
      var before := PageStart(runes, reserve, k - 1);
      Visible(runes, before + Cut(runes, before, reserve))
  }

  /** Page `k` of a text, and the pages after it, are those from its place on. */
  lemma {:induction false} PageOfIndex(runes: string, reserve: int, k: nat) returns (at: nat, fit: nat, n: nat)
    requires k < |PagesFrom(runes, 0, reserve)|
    ensures at == PageStart(runes, reserve, k) && IsPage(runes, at, fit, n, reserve)
    ensures PagesFrom(runes, 0, reserve)[k..] == [PageText(runes, at, n)] + PagesFrom(runes, at + n, reserve)
  {
    hide Cut, PageText, FitCount, Window, PagesFrom, IsPage;
    var pages := PagesFrom(runes, 0, reserve);
    var from := 0;
    if k > 0 {
      var a, f, m := PageOfIndex(runes, reserve, k - 1);
      PageInText(runes, a, f, m, reserve);
      from := a + m;
      assert pages[k..] == pages[k - 1..][1..];
    } else {
      assert pages[0..] == pages;
    }
    at, fit, n := FirstPage(runes, from, reserve);
  }

  lemma PageInText(runes: string, at: nat, fit: nat, n: nat, reserve: int)
    requires IsPage(runes, at, fit, n, reserve)
    ensures at + n <= |runes| && n == Cut(runes, at, reserve)
  {
  }

  lemma FirstPage(runes: string, from: nat, reserve: int) returns (at: nat, fit: nat, n: nat)
    requires from <= |runes| && PagesFrom(runes, from, reserve) != []
    ensures at == Visible(runes, from) && IsPage(runes, at, fit, n, reserve)
    ensures PagesFrom(runes, from, reserve) == [PageText(runes, at, n)] + PagesFrom(runes, at + n, reserve)
  {
    hide Cut, PageText, FitCount, Window;
    at := Visible(runes, from);
    fit, n := FitCount(Window(runes, at), reserve), Cut(runes, at, reserve);
    CutBounds(runes, at, reserve);
  }

  lemma WindowPrefix(runes: string, at: nat, n: nat)
    requires at <= |runes| && n <= |Window(runes, at)|
    ensures at + n <= |runes| && Window(runes, at)[..n] == runes[at..at + n]
  {
  }

  // ---------- every page fits and shows something ----------

  lemma PageFits(runes: string, at: nat, fit: nat, n: nat, reserve: int)
    requires reserve >= 0 && IsPage(runes, at, fit, n, reserve)
    ensures var p := PageText(runes, at, n);
            p != "" && !IsSpace(p[0]) && !IsSpace(p[|p| - 1]) && Affordable(p, reserve)
  {
    hide Cut, FitCount, Affordable, IsSpace;
    var window := Window(runes, at);
    WindowPrefix(runes, at, n);
    PageIsVisible(window, n);
    TrimRightSplits(window[..n]);
    var p := TrimRight(window[..n]);
    assert p == window[..|p|];
    FitCountIsOptimal(window, reserve, |p|);
  }

  /** Every page costs at most its own budget less the reserve, and neither
      starts nor ends in white space. */
  lemma PagesFit(body: string, reserve: int, k: nat)
    requires reserve >= 0 && k < |Pages(body, reserve)|
    ensures var p := Pages(body, reserve)[k];
            p != "" && !IsSpace(p[0]) && !IsSpace(p[|p| - 1]) && Affordable(p, reserve)
  {
    hide PagesFrom, TrimSpace, IsPage, PageText, Affordable, IsSpace, NoRoom, PageStart;
    var runes := TrimSpace(body);
    var at, fit, n := PageOfIndex(runes, reserve, k);
    assert PagesFrom(runes, 0, reserve)[k] == PagesFrom(runes, 0, reserve)[k..][0];
    PageFits(runes, at, fit, n, reserve);
  }

  /** The boundary that ends page `k` splits a word only when no space or newline
      lies past the first third of the fitting window. */
  lemma PagesSplitNoWord(body: string, reserve: int, k: nat) returns (at: nat, fit: nat, n: nat)
    requires k < |Pages(body, reserve)|
    ensures var runes := TrimSpace(body);
            && at == PageStart(runes, reserve, k) && IsPage(runes, at, fit, n, reserve)
            && Pages(body, reserve)[k] == PageText(runes, at, n)
            && (at + n < |runes| && !IsBreakRune(runes[at + n]) ==>
              n == fit && forall i | at < i < at + fit && at + fit / 3 <= i :: !IsBreakRune(runes[i]))
  {
    hide PagesFrom, TrimSpace, PageText, NoRoom, PageStart, IsPage;
    var runes := TrimSpace(body);
    at, fit, n := PageOfIndex(runes, reserve, k);
    assert PagesFrom(runes, 0, reserve)[k] == PagesFrom(runes, 0, reserve)[k..][0];
    CutSplitsNoWord(runes, at, fit, n, reserve);
  }

  lemma CutSplitsNoWord(runes: string, at: nat, fit: nat, n: nat, reserve: int)
    requires IsPage(runes, at, fit, n, reserve)
    ensures at + n < |runes| && !IsBreakRune(runes[at + n]) ==>
              n == fit && forall i | at < i < at + fit && at + fit / 3 <= i :: !IsBreakRune(runes[i])
  {
    hide FitCount, BreakAt, IsBreakRune, IsSpace;
    var seen := Window(runes, at)[..fit];
    WindowPrefix(runes, at, fit);
    BreakSplitsNoWord(seen);
    BreakBounds(seen);
    forall i | at < i < at + fit && at + fit / 3 <= i ensures IsBreakRune(runes[i]) ==> IsBreakRune(seen[i - at]) {
    }
  }

  /** A text that fits beside the reserve is one page. */
  lemma OnePageWhenItFits(body: string, reserve: int)
    requires reserve >= 0 && TrimSpace(body) != "" && Affordable(TrimSpace(body), reserve) && !NoRoom(body, reserve)
    ensures Pages(body, reserve) == [TrimSpace(body)]
  {
    hide Affordable, IsSpace, FitCount, PagesFrom, NoRoom;
    var runes := TrimSpace(body);
    TrimmedEnds(body);
    FitsWindow(runes, reserve);
    FitCountIsOptimal(runes, reserve, |runes|);
    assert Window(runes, 0) == runes;
    LastPage(runes, 0, reserve);
  }

  lemma FitsWindow(s: string, reserve: int)
    requires reserve >= 0 && Affordable(s, reserve)
    ensures |s| <= MAX_SEPTETS
  {
    TallyBounds(AlphabetOf(s), s);
  }

  // ---------- nothing is lost ----------

  /** White space, page, white space, page and so on, ending in white space. */
  function Weave(gaps: seq<string>, pages: seq<string>): string
    requires |gaps| == |pages| + 1
  {
    if pages == [] then gaps[0] else gaps[0] + pages[0] + Weave(gaps[1..], pages[1..])
  }

  ghost predicate AreGaps(gaps: seq<string>, pages: seq<string>) {
    |gaps| == |pages| + 1 && forall i | 0 <= i < |gaps| :: AllSpace(gaps[i])
  }

  /** `pages` are all of `body` but for white space before, between and after. */
  ghost predicate Partitions(pages: seq<string>, body: string) {
    exists gaps :: AreGaps(gaps, pages) && Weave(gaps, pages) == body
  }

  /** Every visible rune of `body` has room beside the reserve on its own. */
  ghost predicate EachRuneHasRoom(body: string, reserve: int) {
    forall c | c in body && !IsSpace(c) :: Affordable([c], reserve)
  }

  lemma RoomMakesProgress(runes: string, at: nat, reserve: int)
    requires reserve >= 0 && at < |runes| && !IsSpace(runes[at]) && EachRuneHasRoom(runes, reserve)
    ensures Cut(runes, at, reserve) > 0
  {
    hide Affordable, IsSpace, Cut, FitCount;
    CutBounds(runes, at, reserve);
    var window := Window(runes, at);
    assert window[..1] == [runes[at]];
    FitCountIsOptimal(window, reserve, 1);
  }

  lemma {:induction false} PagesWeave(runes: string, from: nat, reserve: int) returns (gaps: seq<string>)
    requires reserve >= 0 && from <= |runes| && EachRuneHasRoom(runes, reserve)
    ensures AreGaps(gaps, PagesFrom(runes, from, reserve))
    ensures Weave(gaps, PagesFrom(runes, from, reserve)) == runes[from..]
    decreases |runes| - from
  {
    hide Cut, PageText, EachRuneHasRoom, IsSpace, Weave, AreGaps, FitCount, Affordable;
    var at := Visible(runes, from);
    VisibleSkipsSpace(runes, from);
    if at == |runes| {
      NoPage(runes, at, reserve);
      gaps := LastGap(runes[from..]);
    } else {
      RoomMakesProgress(runes, at, reserve);
      var n := Cut(runes, at, reserve);
      var rest := PagesWeave(runes, at + n, reserve);
      var page, tail := PageAndTail(runes, at, n);
      gaps := WeaveStep(runes[from..at], page, tail, rest, PagesFrom(runes, at + n, reserve));
      assert runes[from..] == runes[from..at] + runes[at..at + n] + runes[at + n..];
    }
  }

  lemma LastGap(gap: string) returns (gaps: seq<string>)
    requires AllSpace(gap)
    ensures AreGaps(gaps, []) && Weave(gaps, []) == gap
  {
    gaps := [gap];
  }

  lemma PageAndTail(runes: string, at: nat, n: nat) returns (page: string, tail: string)
    requires at + n <= |runes|
    ensures page == PageText(runes, at, n) && AllSpace(tail) && runes[at..at + n] == page + tail
  {
    hide IsSpace;
    var taken := runes[at..at + n];
    TrimRightSplits(taken);
    page := TrimRight(taken);
    tail := taken[|page|..];
  }

  /** White space trimmed off a page joins the gap after it. */
  lemma WeaveStep(gap: string, page: string, tail: string, rest: seq<string>, pages: seq<string>) returns (gaps: seq<string>)
    requires AreGaps(rest, pages) && AllSpace(gap) && AllSpace(tail)
    ensures AreGaps(gaps, [page] + pages)
    ensures Weave(gaps, [page] + pages) == gap + (page + tail) + Weave(rest, pages)
  {
    hide IsSpace;
    gaps := [gap, tail + rest[0]] + rest[1..];
    var after := [tail + rest[0]] + rest[1..];
    assert gaps[1..] == after && ([page] + pages)[1..] == pages;
    assert after[1..] == rest[1..];
    assert Weave(after, pages) == tail + Weave(rest, pages);
    forall i | 0 <= i < |gaps| ensures AllSpace(gaps[i]) {
      assert i >= 2 ==> gaps[i] == rest[i - 1];
    }
  }

  lemma {:induction false} SolidOfWeave(gaps: seq<string>, pages: seq<string>)
    requires AreGaps(gaps, pages)
    ensures Solid(Weave(gaps, pages)) == Solid(Concat(pages))
  {
    hide IsSpace, Solid;
    if pages == [] {
      SolidOfGap(gaps[0], "", "");
      assert gaps[0] + "" + "" == gaps[0];
    } else {
      var w := Weave(gaps[1..], pages[1..]);
      SolidOfWeave(gaps[1..], pages[1..]);
      assert pages == [pages[0]] + pages[1..];
      ConcatCons(pages[0], pages[1..]);
      SolidAppend(gaps[0] + pages[0], w);
      SolidOfGap(gaps[0], pages[0], "");
      assert gaps[0] + pages[0] + "" == gaps[0] + pages[0];
      SolidAppend(pages[0], Concat(pages[1..]));
    }
  }

  /** The reserve is one that the body can be paged with: Paginate does not give
      up at once, and each visible rune has room. */
  ghost predicate CanPage(body: string, reserve: int) {
    Solid(body) == "" || (!NoRoom(body, reserve) && EachRuneHasRoom(body, reserve))
  }

  /** Paginate loses nothing but white space exactly when the reserve leaves room
      for each visible rune: then the body is white space, page, white space and
      so on to its end. */
  lemma PaginateIsComplete(body: string, reserve: int)
    requires reserve >= 0
    ensures Partitions(Pages(body, reserve), body) <==> CanPage(body, reserve)
  {
    if CanPage(body, reserve) {
      CompleteWhenRoom(body, reserve);
    }
    if Partitions(Pages(body, reserve), body) {
      RoomWhenComplete(body, reserve);
    }
  }

  lemma CompleteWhenRoom(body: string, reserve: int)
    requires reserve >= 0 && CanPage(body, reserve)
    ensures Partitions(Pages(body, reserve), body)
  {
    hide Affordable, IsSpace, Weave, PagesFrom, AllSpace, Solid, TrimLeft, TrimRight;
    if Solid(body) == "" {
      BlankBody(body, reserve);
    } else {
      var runes := TrimSpace(body);
      var left, right := TrimParts(body);
      forall c | c in runes ensures c in body {}
      var gaps := PagesWeave(runes, 0, reserve);
      assert runes[0..] == runes;
      var wide := WidenGaps(left, gaps, PagesFrom(runes, 0, reserve), right);
    }
  }

  lemma BlankBody(body: string, reserve: int)
    requires Solid(body) == ""
    ensures Partitions(Pages(body, reserve), body)
  {
    hide IsSpace, PageText, Cut;
    forall i | 0 <= i < |body| ensures IsSpace(body[i]) {
      SolidMembers(body, body[i]);
    }
    TrimOfBlank(body);
    NoPage("", 0, reserve);
    var gaps := LastGap(body);
    assert AreGaps(gaps, Pages(body, reserve));
  }

  lemma TrimOfBlank(s: string)
    requires AllSpace(s)
    ensures TrimSpace(s) == ""
  {
    hide IsSpace;
    TrimLeftSplits(s);
  }

  lemma {:induction false} WidenGaps(left: string, gaps: seq<string>, pages: seq<string>, right: string)
    returns (wide: seq<string>)
    requires AreGaps(gaps, pages) && AllSpace(left) && AllSpace(right)
    ensures AreGaps(wide, pages) && Weave(wide, pages) == left + Weave(gaps, pages) + right
    decreases |pages|
  {
    hide IsSpace;
    if pages == [] {
      wide := [left + gaps[0] + right];
    } else {
      var rest := WidenGaps("", gaps[1..], pages[1..], right);
      wide := [left + gaps[0]] + rest;
      assert wide[1..] == rest;
      assert "" + Weave(gaps[1..], pages[1..]) + right == Weave(gaps[1..], pages[1..]) + right;
    }
  }

  lemma RoomWhenComplete(body: string, reserve: int)
    requires reserve >= 0 && Partitions(Pages(body, reserve), body)
    ensures CanPage(body, reserve)
  {
    hide Affordable, IsSpace, PagesFrom, Weave, NoRoom;
    var pages := Pages(body, reserve);
    var gaps :| AreGaps(gaps, pages) && Weave(gaps, pages) == body;
    SolidOfWeave(gaps, pages);
    if Solid(body) != "" {
      forall c | c in body && !IsSpace(c) ensures Affordable([c], reserve) {
        SolidMembers(body, c);
        SolidMembers(Concat(pages), c);
        var k := PageHolding(pages, c);
        PagesFit(body, reserve, k);
        assert Within([c], pages[k]);
        AffordableWithin([c], pages[k], reserve);
      }
    }
  }

  lemma {:induction false} PageHolding(pages: seq<string>, c: char) returns (k: nat)
    requires c in Concat(pages)
    ensures k < |pages| && c in pages[k]
  {
    var n := |pages| - 1;
    if c in pages[n] {
      k := n;
    } else {
      k := PageHolding(pages[..n], c);
    }
  }

  /** The visible runes of a completely paged body are the pages' own, each once
      and in order. */
  lemma PagesKeepEveryRune(body: string, reserve: int)
    requires reserve >= 0 && CanPage(body, reserve)
    ensures Solid(Concat(Pages(body, reserve))) == Solid(body)
  {
    hide CanPage, PagesFrom, Solid, Weave;
    CompleteWhenRoom(body, reserve);
    var gaps :| AreGaps(gaps, Pages(body, reserve)) && Weave(gaps, Pages(body, reserve)) == body;
    SolidOfWeave(gaps, Pages(body, reserve));
  }

  /** A reserve of at most 68 always leaves room, and one of at most 180 does for
      a body in the GSM alphabet. */
  lemma SmallReserveHasRoom(body: string, reserve: int)
    requires 0 <= reserve <= 68 || (AllGsm(body) && 0 <= reserve <= 180)
    ensures CanPage(body, reserve)
  {
    hide IsSpace, Solid;
    forall c | c in body && !IsSpace(c) ensures Affordable([c], reserve) {
      assert [c][..0] == "";
      assert Tally(AlphabetOf([c]), [c]) == Weight(AlphabetOf([c]), c);
    }
  }

  /** Past those bounds paging can stop early: beside 69 units an astral rune has
      no room, and beside 181 an extension character has none. */
  lemma LargeReserveStopsEarly()
    ensures !Partitions(Pages("\U{1F30D}", 69), "\U{1F30D}")
    ensures !Partitions(Pages("{", 181), "{")
  {
    hide Partitions, Pages;
    forall body, reserve | (body, reserve) == ("\U{1F30D}", 69) || (body, reserve) == ("{", 181)
      ensures !Partitions(Pages(body, reserve), body)
    {
      var c := body[0];
      SolidMembers(body, c);
      assert body[..0] == "" && body == [c];
      PaginateIsComplete(body, reserve);
    }
  }

  // ---------- how many pages ----------

  /** The reserve leaves room for one rune of `body`, seen as text of alphabet `a`:
      GSM text, or any text at all. */
  predicate LeavesRoom(a: Alphabet, body: string, reserve: int) {
    match a
    case GSM7 => AllGsm(body) && 0 <= reserve <= 180
    case UCS2 => 0 <= reserve <= 68
  }

  /** The fewest runes that any window with more to come holds. */
  function LeastFit(a: Alphabet, reserve: int): int {
    (Capacity(a) - reserve) / 2
  }

  /** The fewest runes that a page with more to come takes. */
  function LeastCut(a: Alphabet, reserve: int): (n: int)
    ensures n >= 1
  {
    Max(1, LeastFit(a, reserve) / 3)
  }

  lemma LeastFits(a: Alphabet, s: string, reserve: int)
    requires LeavesRoom(a, s, reserve) && |s| <= LeastFit(a, reserve)
    ensures Affordable(s, reserve)
  {
    hide IsBasic, IsExtension;
    TallyBounds(AlphabetOf(s), s);
  }

  lemma WindowHoldsLeastFit(a: Alphabet, runes: string, at: nat, reserve: int)
    requires LeavesRoom(a, runes, reserve) && at < |runes|
    ensures var fit := FitCount(Window(runes, at), reserve); at + fit == |runes| || LeastFit(a, reserve) <= fit
  {
    hide FitCount, Affordable, IsBasic, IsExtension;
    var window := Window(runes, at);
    var m := Min(LeastFit(a, reserve), |window|);
    assert AllGsm(runes) ==> AllGsm(window[..m]);
    LeastFits(a, window[..m], reserve);
    FitCountIsOptimal(window, reserve, m);
  }

  lemma {:induction false} PageCountFrom(a: Alphabet, runes: string, from: nat, reserve: int)
    requires LeavesRoom(a, runes, reserve) && from <= |runes|
    ensures (|PagesFrom(runes, from, reserve)| - 1) * LeastCut(a, reserve) <= |runes| - from
    decreases |runes| - from
  {
    hide FitCount, Window, PageText, Cut, LeastCut, LeavesRoom;
    var at := Visible(runes, from);
    var n := Cut(runes, at, reserve);
    if n == 0 {
      assert LeastCut(a, reserve) >= 1;
    } else {
      CutBounds(runes, at, reserve);
      PageCountFrom(a, runes, at + n, reserve);
      if at + n == |runes| {
        NoPage(runes, |runes|, reserve);
      } else {
        CutOfInnerPage(a, runes, at, reserve);
        OneMorePage(|PagesFrom(runes, at + n, reserve)|, LeastCut(a, reserve), n, |runes| - at);
      }
    }
  }

  lemma OneMorePage(rest: int, k: int, n: int, left: int)
    requires k <= n && (rest - 1) * k <= left - n
    ensures rest * k <= left
  {
    assert rest * k == (rest - 1) * k + k;
  }

  lemma CutOfInnerPage(a: Alphabet, runes: string, at: nat, reserve: int)
    requires LeavesRoom(a, runes, reserve) && at < |runes| && at + Cut(runes, at, reserve) < |runes|
    ensures LeastCut(a, reserve) <= Cut(runes, at, reserve) || Cut(runes, at, reserve) == 0
  {
    hide FitCount, BreakAt, Window, LeavesRoom;
    CutBounds(runes, at, reserve);
    WindowHoldsLeastFit(a, runes, at, reserve);
  }

  /** A post cannot turn into endlessly many pages: each page but the last takes
      at least a third of what always fits, which is more when it is GSM text. */
  lemma PageCountBound(a: Alphabet, body: string, reserve: int)
    requires LeavesRoom(a, body, reserve)
    ensures |Pages(body, reserve)| <= 1 + |body| / LeastCut(a, reserve)
  {
    hide PagesFrom, LeastCut, IsBasic, IsExtension, TrimSpace;
    var runes := TrimSpace(body);
    var left, right := TrimParts(body);
    forall c | c in runes ensures c in body {}
    PageCountFrom(a, runes, 0, reserve);
    DivideBound(|Pages(body, reserve)| - 1, LeastCut(a, reserve), |body|);
  }

  lemma DivideBound(n: int, k: int, m: int)
    requires k > 0 && m >= 0 && n * k <= m
    ensures n <= m / k
  {
    var q := m / k;
    assert m < q * k + k;
    NextMultiple(q, k);
    TimesOrder(q + 1, n, k);
  }

  lemma NextMultiple(q: int, k: int)
    ensures (q + 1) * k == q * k + k
  {
  }

  lemma TimesOrder(x: int, y: int, k: nat)
    ensures x <= y ==> x * k <= y * k
  {
    if x <= y {
      TimesGrows(x, y - x, k);
    }
  }

  lemma {:induction false} TimesGrows(x: int, d: nat, k: nat)
    ensures x * k <= (x + d) * k
  {
    if d > 0 {
      TimesGrows(x, d - 1, k);
      NextMultiple(x + d - 1, k);
    }
  }
}
