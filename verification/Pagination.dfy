/** Splitting a body into pages that each fit a screen beside a reserve. */
module Pagination {
  import opened Text
  import opened Encoding

  /** Binary search for the longest affordable prefix, between `lo` and `hi`
      runes. */
  function Search(runes: string, reserve: int, lo: nat, hi: nat): (n: nat)
    requires lo <= hi <= |runes|
    ensures lo <= n <= hi
    decreases hi - lo
  {
    if lo == hi then lo
    else
      var mid := (lo + hi + 1) / 2;
      if Affordable(runes[..mid], reserve) then Search(runes, reserve, mid, hi)
      else Search(runes, reserve, lo, mid - 1)
  }

  /** What fitRunes answers. */
  function FitCount(runes: string, reserve: int): (n: nat)
    ensures n <= |runes| && n <= MAX_SEPTETS
  {
    Search(runes, reserve, 0, Min(|runes|, MAX_SEPTETS))
  }

  method FitRunes(runes: string, reserve: int) returns (n: nat)
    ensures n == FitCount(runes, reserve)
  {
    var lo, hi := 0, Min(|runes|, MAX_SEPTETS);
    while lo < hi
      invariant 0 <= lo <= hi <= |runes|
      invariant Search(runes, reserve, lo, hi) == FitCount(runes, reserve)
    {
      var mid := (lo + hi + 1) / 2;
      var cost, _ := ScreenCost(runes[..mid]);
      var budget := Budget(runes[..mid]);
      if cost + reserve <= budget {
        lo := mid;
      } else {
        hi := mid - 1;
      }
    }
    n := lo;
  }

  lemma {:induction false} SearchFindsGreatest(runes: string, reserve: int, lo: nat, hi: nat, m: nat)
    requires reserve >= MIN_RESERVE && lo <= hi <= |runes|
    requires lo == 0 || Affordable(runes[..lo], reserve)
    requires 0 < m <= hi
    ensures m <= Search(runes, reserve, lo, hi) <==> Affordable(runes[..m], reserve)
    decreases hi - lo
  {
    hide Affordable;
    if lo == hi {
      FitMonotone(runes, reserve, m, lo);
    } else {
      var mid := (lo + hi + 1) / 2;
      if Affordable(runes[..mid], reserve) {
        SearchFindsGreatest(runes, reserve, mid, hi, m);
      } else if m < mid {
        SearchFindsGreatest(runes, reserve, lo, mid - 1, m);
      } else {
        FitMonotone(runes, reserve, mid, m);
      }
    }
  }

  lemma FitMonotone(runes: string, reserve: int, m: nat, n: nat)
    requires reserve >= MIN_RESERVE
    requires m <= |runes| && n <= |runes|
    ensures m <= n && Affordable(runes[..n], reserve) ==> Affordable(runes[..m], reserve)
  {
    if m <= n && Affordable(runes[..n], reserve) {
      assert runes[..n] == runes[..m] + runes[m..n];
      AffordableWithin(runes[..m], runes[..n], reserve);
    }
  }

  /** The search finds the true optimum although cost jumps at an encoding
      switch, and capping it at the screen size loses nothing: a non-empty
      prefix of any length is affordable exactly when it is no longer than the
      answer. */
  lemma FitCountIsOptimal(runes: string, reserve: int, m: nat)
    requires 0 <= reserve && 0 < m <= |runes|
    ensures m <= FitCount(runes, reserve) <==> Affordable(runes[..m], reserve)
  {
    if m <= MAX_SEPTETS {
      SearchFindsGreatest(runes, reserve, 0, Min(|runes|, MAX_SEPTETS), m);
    } else {
      TallyBounds(AlphabetOf(runes[..m]), runes[..m]);
    }
  }

  // ---------- the break heuristic ----------

  const SEPARATORS: seq<string> := ["\n\n", "\n", " "]

  /** The latest `sep` that is neither at the start nor in the first third. */
  function GoodBreak(window: string, sep: string): (at: int)
    ensures at == -1 || (0 < at <= |window| - |sep| && |window| / 3 <= at)
  {
    var at := LastIndex(window, sep);
    if 0 < at && |window| / 3 <= at then at else -1
  }

  /** Paragraph breaks before line breaks before word boundaries. */
  function BreakAt(window: string): int {
    if GoodBreak(window, "\n\n") > 0 then GoodBreak(window, "\n\n")
    else if GoodBreak(window, "\n") > 0 then GoodBreak(window, "\n")
    else if GoodBreak(window, " ") > 0 then GoodBreak(window, " ")
    else |window|
  }

  method BreakPoint(window: string) returns (at: int)
    ensures at == BreakAt(window)
  {
    var floor := |window| / 3;
    for i := 0 to |SEPARATORS|
      invariant 0 < i ==> GoodBreak(window, "\n\n") == -1
      invariant 1 < i ==> GoodBreak(window, "\n") == -1
      invariant 2 < i ==> GoodBreak(window, " ") == -1
    {
      var idx := LastIndex(window, SEPARATORS[i]);
      if idx > 0 {
        if idx >= floor {
          return idx;
        }
      }
    }
    return |window|;
  }

  lemma BreakBounds(window: string)
    ensures 0 <= BreakAt(window) <= |window|
    ensures window != "" ==> 0 < BreakAt(window)
    ensures |window| / 3 <= BreakAt(window)
  {
  }

  lemma GoodBreakMeaning(window: string, sep: string)
    ensures var at := GoodBreak(window, sep); at == -1 || OccursAt(window, sep, at)
    ensures forall i | GoodBreak(window, sep) < i && 0 < i && |window| / 3 <= i :: !OccursAt(window, sep, i)
  {
    LastIndexMeaning(window, sep, |window| - |sep|);
  }

  predicate IsBreakRune(c: char) {
    c == ' ' || c == '\n'
  }

  lemma OccursRune(s: string, c: char, i: int)
    ensures OccursAt(s, [c], i) <==> 0 <= i < |s| && s[i] == c
  {
    if 0 <= i < |s| {
      assert s[i..i + 1] == [s[i]];
    }
  }

  /** A word is split only if neither a space nor a newline lies past the first
      third of the window. */
  lemma BreakSplitsNoWord(window: string)
    ensures BreakAt(window) < |window| ==> IsBreakRune(window[BreakAt(window)])
    ensures BreakAt(window) == |window| ==>
              forall i | 0 < i < |window| && |window| / 3 <= i :: !IsBreakRune(window[i])
  {
    GoodBreakMeaning(window, "\n\n");
    GoodBreakMeaning(window, "\n");
    GoodBreakMeaning(window, " ");
    var at := BreakAt(window);
    if at < |window| {
      OccursRune(window, '\n', at);
      OccursRune(window, ' ', at);
      if OccursAt(window, "\n\n", at) {
        assert window[at..at + 2][0] == window[at];
      }
    } else {
      forall i | 0 < i < |window| && |window| / 3 <= i ensures !IsBreakRune(window[i]) {
        OccursRune(window, '\n', i);
        OccursRune(window, ' ', i);
      }
    }
  }

  /** `sep` occurs at or after `from`, but not only at the start. */
  ghost predicate HasBreak(window: string, sep: string, from: int) {
    exists i :: from <= i && 0 < i && OccursAt(window, sep, i)
  }

  /** `sep` occurs past the first third of the window and nowhere in its final
      third. */
  ghost predicate EarlyOnly(window: string, sep: string) {
    HasBreak(window, sep, |window| / 3) && !HasBreak(window, sep, (2 * |window| + 2) / 3)
  }

  lemma GoodBreakIsBreak(window: string, sep: string)
    ensures GoodBreak(window, sep) > 0 <==> HasBreak(window, sep, |window| / 3)
    ensures GoodBreak(window, sep) > 0 ==>
              (3 * GoodBreak(window, sep) < 2 * |window| <==> EarlyOnly(window, sep))
  {
    hide OccursAt;
    GoodBreakMeaning(window, sep);
  }

  /** Exactly when the break falls before the final third: the best kind of break
      that there is past the first third does not reach the final one, whether or
      not a lesser kind does. */
  lemma BreakBeforeFinalThirdIff(window: string)
    ensures 3 * BreakAt(window) < 2 * |window| <==>
            || EarlyOnly(window, "\n\n")
            || (!HasBreak(window, "\n\n", |window| / 3)
                && (EarlyOnly(window, "\n")
                    || (!HasBreak(window, "\n", |window| / 3) && EarlyOnly(window, " "))))
  {
    hide HasBreak, GoodBreak;
    GoodBreakIsBreak(window, "\n\n");
    GoodBreakIsBreak(window, "\n");
    GoodBreakIsBreak(window, " ");
    EarlyIsBreak(window, "\n\n");
    EarlyIsBreak(window, "\n");
    EarlyIsBreak(window, " ");
  }

  lemma EarlyIsBreak(window: string, sep: string)
    ensures EarlyOnly(window, sep) ==> HasBreak(window, sep, |window| / 3)
  {
  }

  /** Such a window exists: a lone space in the middle third. */
  lemma BreakCanFallBeforeFinalThird()
    ensures BreakAt("aaa bbbbb") == 3
  {
    hide BreakAt;
    BreakSplitsNoWord("aaa bbbbb");
    BreakBounds("aaa bbbbb");
    assert IsBreakRune("aaa bbbbb"[3]);
  }

  /** Paragraph breaks win over line breaks, and those over spaces; the latest
      of the winning kind is taken, and all of the window when there is none. */
  lemma BreakPrefersParagraphs(window: string, i: int)
    requires 0 < i && |window| / 3 <= i
    ensures OccursAt(window, "\n\n", i) ==> i <= BreakAt(window) && OccursAt(window, "\n\n", BreakAt(window))
    ensures !HasBreak(window, "\n\n", |window| / 3) && OccursAt(window, "\n", i) ==>
              i <= BreakAt(window) && OccursAt(window, "\n", BreakAt(window))
    ensures !HasBreak(window, "\n\n", |window| / 3) && !HasBreak(window, "\n", |window| / 3) && OccursAt(window, " ", i) ==>
              i <= BreakAt(window) && OccursAt(window, " ", BreakAt(window))
    ensures (forall sep | sep in SEPARATORS :: !HasBreak(window, sep, |window| / 3)) ==> BreakAt(window) == |window|
  {
    hide OccursAt, GoodBreak;
    GoodBreakMeaning(window, "\n\n");
    GoodBreakMeaning(window, "\n");
    GoodBreakMeaning(window, " ");
    GoodBreakIsBreak(window, "\n\n");
    GoodBreakIsBreak(window, "\n");
    GoodBreakIsBreak(window, " ");
    assert SEPARATORS[0] in SEPARATORS && SEPARATORS[1] in SEPARATORS && SEPARATORS[2] in SEPARATORS;
  }

  // ---------- Paginate ----------

  /** The first visible rune from `at` on, or the end of the text. */
  function Visible(runes: string, at: nat): (next: nat)
    requires at <= |runes|
    ensures at <= next <= |runes|
    ensures next < |runes| ==> !IsSpace(runes[next])
    decreases |runes| - at
  {
    if at < |runes| && IsSpace(runes[at]) then Visible(runes, at + 1) else at
  }

  lemma {:induction false} VisibleSkipsSpace(runes: string, at: nat)
    requires at <= |runes|
    ensures forall i | at <= i < Visible(runes, at) :: IsSpace(runes[i])
    decreases |runes| - at
  {
    if at < |runes| && IsSpace(runes[at]) {
      VisibleSkipsSpace(runes, at + 1);
    }
  }

  /** All that one page can see. */
  function Window(runes: string, at: nat): string
    requires at <= |runes|
  {
    runes[at..Min(at + MAX_SEPTETS, |runes|)]
  }

  /** How many runes the page that starts visibly at `at` takes; 0 when not even
      one rune fits. */
  function Cut(runes: string, at: nat, reserve: int): (n: nat)
    requires at <= |runes|
    ensures n <= |runes| - at
  {
    var window := Window(runes, at);
    var fit := FitCount(window, reserve);
    BreakBounds(window[..fit]);
    if at + fit == |runes| then fit else BreakAt(window[..fit])
  }

  /** The page that takes `n` runes from `at`. */
  function PageText(runes: string, at: nat, n: nat): string
    requires at + n <= |runes|
  {
    TrimRight(runes[at..at + n])
  }

  /** The pages of the text from `from` on. */
  function PagesFrom(runes: string, from: nat, reserve: int): seq<string>
    requires from <= |runes|
    decreases |runes| - from
  {
    var at := Visible(runes, from);
    var n := Cut(runes, at, reserve);
    if n == 0 then [] else [PageText(runes, at, n)] + PagesFrom(runes, at + n, reserve)
  }

  /** The reserve leaves no room for any page of `body`. */
  predicate NoRoom(body: string, reserve: int) {
    (reserve >= MAX_UCS2_UNITS && AlphabetOf(body) == UCS2) || reserve >= MAX_SEPTETS
  }

  function Pages(body: string, reserve: int): seq<string> {
    if NoRoom(body, reserve) then [] else PagesFrom(TrimSpace(body), 0, reserve)
  }

  method Paginate(body: string, reserve: int) returns (pages: seq<string>)
    ensures pages == Pages(body, reserve)
  {
    if reserve >= MAX_UCS2_UNITS {
      var a := EncodingOf(body);
      if a == UCS2 {
        return [];
      }
    }
    if reserve >= MAX_SEPTETS {
      return [];
    }
    pages := WalkPages(TrimSpace(body), reserve);
  }

  /** The loop of Paginate over the trimmed body. */
  method WalkPages(runes: string, reserve: int) returns (pages: seq<string>)
    requires runes != "" ==> !IsSpace(runes[|runes| - 1])
    ensures pages == PagesFrom(runes, 0, reserve)
  {
    hide PagesFrom, BreakAt, FitCount, TrimRight, IsSpace, Visible, Cut, PageText;
    pages := [];
    var at := 0;
    ghost var all := PagesFrom(runes, 0, reserve);
    while at < |runes|
      invariant 0 <= at <= |runes|
      invariant all == pages + PagesFrom(runes, at, reserve)
      decreases |runes| - at
    {
      var next := SkipSpace(runes, at);
      PagesSkipSpace(runes, at, next, reserve);
      at := next;
      if at >= |runes| {
        break;
      }
      var window := runes[at..Min(at + MAX_SEPTETS, |runes|)];
      var fit := FitRunes(window, reserve);
      if fit == 0 {
        NoPage(runes, at, reserve);
        return;
      }
      if fit >= |window| && at + |window| >= |runes| {
        LastPage(runes, at, reserve);
        pages := pages + [window];
        return;
      }
      var page, cut := TakePage(window, fit);
      NextPage(runes, at, fit, reserve);
      AppendPage(pages, page, PagesFrom(runes, at + cut, reserve));
      pages := pages + [page];
      at := at + cut;
    }
    NoPage(runes, at, reserve);
  }

  lemma AppendPage(pages: seq<string>, page: string, rest: seq<string>)
    ensures pages + ([page] + rest) == pages + [page] + rest
  {
  }

  /** The loop over leading white space. */
  method SkipSpace(runes: string, from: nat) returns (at: nat)
    requires from <= |runes|
    ensures at == Visible(runes, from)
  {
    at := from;
    while at < |runes| && IsSpace(runes[at])
      invariant from <= at <= |runes|
      invariant Visible(runes, from) == Visible(runes, at)
    {
      at := at + 1;
    }
  }

  /** The text of a page and the runes it takes. A page that starts visibly is
      never blank, so the hard split guards a case that cannot arise. */
  method TakePage(window: string, fit: nat) returns (page: string, cut: nat)
    requires 0 < fit <= |window| && !IsSpace(window[0])
    ensures cut == BreakAt(window[..fit]) && 0 < cut <= fit
    ensures page == TrimRight(window[..cut]) && page != ""
  {
    BreakBounds(window[..fit]);
    cut := BreakPoint(window[..fit]);
    PageIsVisible(window, cut);
    var hard := window[..fit];
    page := TrimRight(window[..cut]);
    if page == "" {
      page, cut := hard, fit;
    }
  }

  lemma PagesSkipSpace(runes: string, from: nat, at: nat, reserve: int)
    requires from <= at <= |runes| && Visible(runes, from) == at
    ensures Visible(runes, at) == at
    ensures PagesFrom(runes, from, reserve) == PagesFrom(runes, at, reserve)
  {
    hide Cut, PageText;
  }

  lemma NoPage(runes: string, at: nat, reserve: int)
    requires at <= |runes| && (at == |runes| || Visible(runes, at) == at)
    requires at == |runes| || FitCount(Window(runes, at), reserve) == 0
    ensures PagesFrom(runes, at, reserve) == []
  {
  }

  lemma LastPage(runes: string, at: nat, reserve: int)
    requires at < |runes| && !IsSpace(runes[at]) && !IsSpace(runes[|runes| - 1])
    requires at + FitCount(Window(runes, at), reserve) == |runes|
    ensures PagesFrom(runes, at, reserve) == [Window(runes, at)]
  {
    assert Window(runes, |runes|) == "";
    NoPage(runes, |runes|, reserve);
    assert PageText(runes, at, |runes| - at) == Window(runes, at);
  }

  lemma NextPage(runes: string, at: nat, fit: nat, reserve: int)
    requires at < |runes| && !IsSpace(runes[at])
    requires fit == FitCount(Window(runes, at), reserve) && 0 < fit < |runes| - at
    ensures var n := BreakAt(Window(runes, at)[..fit]);
            PagesFrom(runes, at, reserve) == [TrimRight(Window(runes, at)[..n])] + PagesFrom(runes, at + n, reserve)
  {
    hide BreakAt, FitCount, TrimRight;
    var n := Cut(runes, at, reserve);
    BreakBounds(Window(runes, at)[..fit]);
    assert n == BreakAt(Window(runes, at)[..fit]);
    assert Window(runes, at)[..n] == runes[at..at + n];
  }

  lemma PageIsVisible(window: string, n: nat)
    requires 0 < n <= |window| && !IsSpace(window[0])
    ensures TrimRight(window[..n]) != ""
  {
    TrimRightSplits(window[..n]);
    assert window[..n][0] == window[0];
  }
}
