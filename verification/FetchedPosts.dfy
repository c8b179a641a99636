/** Posts as the client fetches them, capped in bytes, and what the cap does to the
    reader's promises. */
module FetchedPosts {
  import opened Text
  import opened Encoding
  import opened Gsm
  import opened Pagination
  import opened PaginationLaws
  import opened Canonical
  import opened Reader
  import opened ReaderLaws

  const MAX_POST_BYTES: nat := 900

  /** What a fetched post keeps to: an author's name, a trimmed text, and the cap. */
  predicate Fetchable(p: Post) {
    && p.author != "" && TrimSpace(p.author) == p.author
    && TrimSpace(p.text) == p.text && Utf8Len(p.text) <= MAX_POST_BYTES
  }

  // ---------- the cap ----------

  lemma {:induction false} Utf8Append(s: string, t: string)
    ensures Utf8Len(s + t) == Utf8Len(s) + Utf8Len(t)
  {
    if t == "" {
      assert s + t == s;
    } else {
      Utf8Append(s, t[..|t| - 1]);
      assert (s + t)[..|s + t| - 1] == s + t[..|t| - 1];
    }
  }

  lemma {:induction false} Utf8AtLeast(s: string)
    ensures |s| <= Utf8Len(s)
    ensures (forall c | c in s :: c < '\U{80}') ==> Utf8Len(s) == |s|
  {
    if s != "" {
      var t, last := s[..|s| - 1], s[|s| - 1];
      Utf8AtLeast(t);
      assert last in s;
      assert forall c | c in t :: c in s;
    }
  }

  lemma Utf8Prefix(s: string, m: nat, n: nat)
    requires m <= n <= |s|
    ensures Utf8Len(s[..m]) <= Utf8Len(s[..n])
  {
    Utf8Append(s[..m], s[m..n]);
    assert s[..n] == s[..m] + s[m..n];
  }

  /** A text over the limit is cut before the last rune that starts in its first
      `limit - 3` bytes, and marked. */
  method CapBytes(s: string, limit: nat) returns (r: string)
    requires limit >= 3
    ensures Utf8Len(r) <= limit
    ensures Utf8Len(s) <= limit ==> r == s
    ensures Utf8Len(s) > limit ==>
              exists cut | 0 <= cut < |s| ::
                && r == TrimRight(s[..cut]) + "..." && Utf8Len(s[..cut]) <= limit - 3
                && forall j | cut < j < |s| :: Utf8Len(s[..j]) > limit - 3
  {
    if Utf8Len(s) <= limit {
      return s;
    }
    var cut := 0;
    var i := 0;
    while i < |s|
      invariant 0 <= cut <= i <= |s| && cut < |s| && (i > 0 ==> cut == i - 1)
      invariant Utf8Len(s[..cut]) <= limit - 3
    {
      if Utf8Len(s[..i]) > limit - 3 {
        break;
      }
      cut := i;
      i := i + 1;
    }
    forall j | cut < j < |s| ensures Utf8Len(s[..j]) > limit - 3 {
      Utf8Prefix(s, i, j);
    }
    TrimRightSplits(s[..cut]);
    Utf8Prefix(s[..cut], |TrimRight(s[..cut])|, cut);
    Utf8Append(TrimRight(s[..cut]), "...");
    Utf8AtLeast("...");
    assert s[..cut][..cut] == s[..cut];
    r := TrimRight(s[..cut]) + "...";
  }

  // ---------- how many pages a fetched post has ----------

  /** A fetched post in the GSM alphabet has few pages: the cap is 900 bytes, and
      every page but the last takes a third of the room at least. */
  lemma FetchedGsmPages(p: Post, nav: Nav)
    requires Utf8Len(p.text) <= MAX_POST_BYTES && AllGsm(p.text) && ReserveFor(p, nav) <= 122
    ensures |PagesOf(p, nav)| <= 91
  {
    hide ReserveFor, Pages, IsBasic, IsExtension;
    Utf8AtLeast(p.text);
    PageCountBound(GSM7, p.text, ReserveFor(p, nav));
    var least := LeastCut(GSM7, ReserveFor(p, nav));
    assert least >= 10;
    QuotientOf(|p.text|, least);
  }

  lemma QuotientOf(n: nat, k: int)
    requires k >= 10 && n <= MAX_POST_BYTES
    ensures n / k <= 90
  {
    var q := n / k;
    assert q * k <= n;
    TimesOrder(10, k, q);
    assert q * k == k * q;
  }

  // ---------- the reserve, for fetched posts ----------

  /** `m` words of `h` runes, and then `rest`. */
  function Words(h: nat, m: nat, rest: string): string {
    if m == 0 then rest else Repeat('x', h) + " " + Words(h, m - 1, rest)
  }

  lemma {:induction false} WordsShape(h: nat, m: nat, rest: string, most: nat)
    requires h > 0 && rest != "" && forall c | c in rest :: c == 'x'
    ensures var t := Words(h, m, rest);
            && t != "" && t[0] == 'x' && t[|t| - 1] == 'x' && (forall c | c in t :: c == 'x' || c == ' ')
            && |t| >= |rest| + m && t[|t| - |rest|..] == rest
            && (h < most ==> |t| <= most * m + |rest|)
  {
    if m > 0 {
      WordsShape(h, m - 1, rest, most);
      var head, tail := Repeat('x', h) + " ", Words(h, m - 1, rest);
      var t := head + tail;
      assert Words(h, m, rest) == t;
      assert head[0] == 'x';
      assert t[|t| - 1] == tail[|tail| - 1];
      assert t[|t| - |rest|..] == tail[|tail| - |rest|..];
    } else {
      assert rest[0] in rest && rest[|rest| - 1] in rest;
    }
  }

  lemma PlainFit(w: string, k: nat)
    requires 0 < k <= MAX_SEPTETS && AllBasic(w)
    ensures FitCount(w, MAX_SEPTETS - k) == Min(|w|, k)
  {
    hide FitCount, Affordable, IsBasic;
    var n, fit := Min(|w|, k), FitCount(w, MAX_SEPTETS - k);
    PlainAffordable(w[..n], k);
    if n > 0 {
      FitCountIsOptimal(w, MAX_SEPTETS - k, n);
    }
    if fit > n {
      PlainAffordable(w[..fit], k);
      FitCountIsOptimal(w, MAX_SEPTETS - k, fit);
    }
  }

  lemma PlainAffordable(w: string, k: nat)
    requires AllBasic(w)
    ensures Affordable(w, MAX_SEPTETS - k) <==> |w| <= k
  {
    TallyOfBasic(GSM7, w);
  }

  /** A window that starts with a word of at least half its room breaks after it. */
  lemma WordCut(text: string, at: nat, h: nat, k: nat)
    requires 0 < h < k <= MAX_SEPTETS && k <= 2 * h + 1 && at + k < |text| && AllBasic(text)
    requires forall i | at <= i < at + k :: text[i] == if i == at + h then ' ' else 'x'
    ensures Cut(text, at, MAX_SEPTETS - k) == h && PageText(text, at, h) == Repeat('x', h)
  {
    hide FitCount, BreakAt, TrimRight, IsBasic, TrimSpace;
    var window := Window(text, at);
    PlainFit(window, k);
    WindowPrefix(text, at, k);
    var seen := text[at..at + k];
    assert forall i | 0 <= i < k :: seen[i] == if i == h then ' ' else 'x';
    WordBreak(seen, h);
    assert text[at..at + h] == Repeat('x', h);
    RunIsTrim(h);
  }

  lemma WordBreak(seen: string, h: nat)
    requires 0 < h < |seen| <= 2 * h + 1
    requires forall i | 0 <= i < |seen| :: seen[i] == if i == h then ' ' else 'x'
    ensures BreakAt(seen) == h
  {
    hide BreakAt;
    BreakSplitsNoWord(seen);
    BreakBounds(seen);
    assert IsBreakRune(seen[h]);
  }

  /** A word, a space and what follows: one page, and then the pages of that. */
  lemma WordPage(text: string, at: nat, h: nat, tail: string, k: nat)
    requires 0 < h < k <= MAX_SEPTETS && k <= 2 * h + 1 && AllBasic(text)
    requires at <= |text| && text[at..] == Repeat('x', h) + " " + tail
    requires |tail| >= k - h && forall i | 0 <= i < k - h - 1 :: tail[i] == 'x'
    requires tail[0] == 'x'
    ensures at + h + 1 <= |text| && text[at + h + 1..] == tail
    ensures PagesFrom(text, at, MAX_SEPTETS - k) == [Repeat('x', h)] + PagesFrom(text, at + h + 1, MAX_SEPTETS - k)
  {
    hide PagesFrom, Cut, PageText, IsBasic, Visible, IsSpace;
    assert forall i | at <= i < |text| :: text[i] == text[at..][i - at];
    assert text[at + h + 1..] == text[at..][h + 1..] == tail;
    WordCut(text, at, h, k);
    XIsVisible();
    PageThenRest(text, at, h, MAX_SEPTETS - k);
    OneSpace(text, at + h);
    PagesSkipSpace(text, at + h, at + h + 1, MAX_SEPTETS - k);
  }

  lemma {:induction false} WordPages(text: string, at: nat, h: nat, m: nat, k: nat, end: nat)
    requires 0 < h < k <= MAX_SEPTETS && k <= 2 * h + 1 && AllBasic(text)
    requires at <= |text| && text[at..] == Words(h, m, Repeat('x', k + 1)) && end + (k + 1) == |text|
    ensures PagesFrom(text, at, MAX_SEPTETS - k) == Copies(Repeat('x', h), m) + PagesFrom(text, end, MAX_SEPTETS - k)
    decreases m
  {
    hide PagesFrom, Cut, PageText, IsBasic, Visible, IsSpace;
    if m > 0 {
      var tail := Words(h, m - 1, Repeat('x', k + 1));
      TailStartsPlain(h, m - 1, Repeat('x', k + 1), k);
      WordPage(text, at, h, tail, k);
      WordPages(text, at + h + 1, h, m - 1, k, end);
      CopyFirst(Repeat('x', h), m, PagesFrom(text, end, MAX_SEPTETS - k));
    } else {
      assert Copies(Repeat('x', h), 0) + PagesFrom(text, end, MAX_SEPTETS - k) == PagesFrom(text, end, MAX_SEPTETS - k);
    }
  }

  lemma CopyFirst(w: string, m: nat, last: seq<string>)
    requires m > 0
    ensures [w] + (Copies(w, m - 1) + last) == Copies(w, m) + last
  {
  }

  lemma {:induction false} TailStartsPlain(h: nat, m: nat, rest: string, k: nat)
    requires 0 < h < k && rest == Repeat('x', k + 1)
    ensures |Words(h, m, rest)| > h && |Words(h, m, rest)| >= k - h
    ensures forall i | 0 <= i < h :: Words(h, m, rest)[i] == 'x'
  {
    if m > 0 {
      TailStartsPlain(h, m - 1, rest, k);
    }
  }

  lemma OneSpace(text: string, at: nat)
    requires at + 1 < |text| && text[at] == ' ' && text[at + 1] == 'x'
    ensures Visible(text, at) == at + 1
  {
  }

  /** Nine words of half a screen each, a full page and one rune more. */
  function TenthPageFull(k: nat): string {
    Words((k + 1) / 2, 9, Repeat('x', k + 1))
  }

  lemma TenthPageFullPages(k: nat)
    requires 1 < k <= MAX_SEPTETS
    ensures TrimSpace(TenthPageFull(k)) == TenthPageFull(k)
    ensures var pages := Pages(TenthPageFull(k), MAX_SEPTETS - k);
            |pages| == 11 && pages[9] == Repeat('x', k)
  {
    hide PagesFrom, IsBasic, Cut, PageText, Copies, FitCount, Words, TrimSpace, TrimRight, IsSpace;
    var text, h, rest := TenthPageFull(k), (k + 1) / 2, Repeat('x', k + 1);
    WordsShape(h, 9, rest, 0);
    PlainChars();
    assert AllBasic(text);
    assert forall i | |text| - |rest| <= i < |text| :: text[i] == text[|text| - |rest|..][i - (|text| - |rest|)];
    assert text[0..] == text;
    WordPages(text, 0, h, 9, k, |text| - |rest|);
    CopiesAt(Repeat('x', h), 9);
    LastTwoPages(text, k);
    XIsVisible();
    VisibleEnds(text);
    TallyOfBasic(GSM7, text);
  }

  lemma PlainChars()
    ensures IsBasic('x') && IsBasic(' ')
  {
  }

  lemma VisibleEnds(s: string)
    requires s != "" && !IsSpace(s[0]) && !IsSpace(s[|s| - 1])
    ensures TrimSpace(s) == s
  {
    hide IsSpace;
  }

  lemma LastTwoPages(text: string, k: nat)
    requires 0 < k <= MAX_SEPTETS && |text| > k + 1 && AllBasic(text)
    requires forall i | |text| - (k + 1) <= i < |text| :: text[i] == 'x'
    ensures PagesFrom(text, |text| - (k + 1), MAX_SEPTETS - k) == [Repeat('x', k), "x"]
  {
    hide PagesFrom, IsBasic, Cut, PageText, FitCount, IsSpace;
    var at := |text| - (k + 1);
    XIsVisible();
    RunCut(text, at, k);
    PageThenRest(text, at, k, MAX_SEPTETS - k);
    var window := Window(text, at + k);
    assert |window| == 1 && window[0] == text[|text| - 1];
    assert window == "x";
    PlainFit(window, k);
    LastPage(text, at + k, MAX_SEPTETS - k);
  }

  lemma RunCut(text: string, at: nat, k: nat)
    requires 0 < k <= MAX_SEPTETS && at + k < |text| && AllBasic(text)
    requires forall i | at <= i < at + k :: text[i] == 'x'
    ensures Cut(text, at, MAX_SEPTETS - k) == k && PageText(text, at, k) == Repeat('x', k)
  {
    hide FitCount, BreakAt, TrimRight, IsBasic, TrimSpace;
    var window := Window(text, at);
    PlainFit(window, k);
    WindowPrefix(text, at, k);
    assert text[at..at + k] == Repeat('x', k);
    SlabBreak(k);
    RunIsTrim(k);
  }

  /** Every screen of every post that can be fetched from this author fits, counters
      permitting. */
  ghost predicate FetchedPostsFit(author: string, nav: Nav) {
    forall text: string, page: nat |
      Fetchable(Post(author, text, "")) && page < |PagesOf(Post(author, text, ""), nav)|
      && CounterWidth(page, |PagesOf(Post(author, text, ""), nav)|) <= 4 ::
      Fits(PageScreen(Post(author, text, ""), nav, page))
  }

  /** The cap does not save the reserve: with a reserve that leaves at most 161 runes
      a page, counting the author label in runes is enough for all fetched posts
      exactly when it has no extension character. */
  lemma FetchedReserveIsEnoughIff(author: string, nav: Nav)
    requires author != "" && TrimSpace(author) == author
    requires PlainNav(nav) && MAX_SEPTETS - 161 <= ReserveFor(Post(author, "", ""), nav) < MAX_SEPTETS - 1
    ensures FetchedPostsFit(author, nav) <==> Extensions(LabelOf(author, MAX_HEADER_LEN, "Post")) == 0
  {
    hide LabelOf, PlainNav, PageScreen, Fits, PagesOf, Decimal, ReserveFor, Extensions, Utf8Len, TrimSpace;
    if Extensions(LabelOf(author, MAX_HEADER_LEN, "Post")) == 0 {
      forall text: string, page: nat |
        Fetchable(Post(author, text, "")) && page < |PagesOf(Post(author, text, ""), nav)|
        && CounterWidth(page, |PagesOf(Post(author, text, ""), nav)|) <= 4
        ensures Fits(PageScreen(Post(author, text, ""), nav, page))
      {
        PostScreensFit(Post(author, text, ""), nav, page);
      }
    } else {
      var text := TenthPageFull(MAX_SEPTETS - ReserveFor(Post(author, "", ""), nav));
      TenthPageOverflows(author, nav, text);
      assert !Fits(PageScreen(Post(author, text, ""), nav, 9));
    }
  }

  lemma TenthPageOverflows(author: string, nav: Nav, text: string)
    requires PlainNav(nav) && MAX_SEPTETS - 161 <= ReserveFor(Post(author, "", ""), nav) < MAX_SEPTETS - 1
    requires text == TenthPageFull(MAX_SEPTETS - ReserveFor(Post(author, "", ""), nav))
    requires Extensions(LabelOf(author, MAX_HEADER_LEN, "Post")) > 0
    ensures Utf8Len(text) <= MAX_POST_BYTES && TrimSpace(text) == text
    ensures var p := Post(author, text, "");
            && |PagesOf(p, nav)| == 11 && CounterWidth(9, 11) == 4 && !Fits(PageScreen(p, nav, 9))
  {
    hide LabelOf, PlainNav, PageScreen, Cost, Decimal, Extensions, ReserveFor, Pages, AllGsm, Words, Utf8Len,
      TrimSpace, TenthPageFull;
    var p, k := Post(author, text, ""), MAX_SEPTETS - ReserveFor(Post(author, "", ""), nav);
    SameReserve(author, "", text, nav);
    TenthPageFullPages(k);
    TenthPageIsShort(k);
    SlabCost(k, 0);
    DecimalWidth(10);
    DecimalWidth(11);
    PageScreenCost(p, nav, 9);
  }

  lemma TenthPageIsShort(k: nat)
    requires 1 < k <= 161
    ensures Utf8Len(TenthPageFull(k)) <= MAX_POST_BYTES
  {
    hide Utf8Len, Words;
    WordsShape((k + 1) / 2, 9, Repeat('x', k + 1), 82);
    Utf8AtLeast(TenthPageFull(k));
  }
}
