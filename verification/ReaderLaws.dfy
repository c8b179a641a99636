/** What the reader promises its user: every page of a post in order, only
    controls that work, and screens that fit. */
module ReaderLaws {
  import opened Text
  import opened Encoding
  import opened Truncation
  import opened Gsm
  import opened Pagination
  import opened PaginationLaws
  import opened Menus
  import opened Canonical
  import opened Sdk
  import opened Reader

  // ---------- one turn on each screen ----------

  /** An event that carries input. */
  predicate Types(ev: Event) {
    ev.phase != Begin && ev.path != []
  }

  function Show(screen: string, notice: string, d: Drawn<State>): Turned<State> {
    Turned(Response(Shrunk(WithNotice(notice, d.body)), false), Some(Stored(screen, d.lang, d.state)))
  }

  /** A turn that shows the post screen, or the timeline. */
  function ShowPost(b: Bundle, c: Context<State>, notice: string): Turned<State> {
    Show("post", notice, PostPrompt(b, c.(notice := notice)))
  }

  function ShowTimeline(b: Bundle, c: Context<State>, notice: string): Turned<State> {
    Show("timeline", notice, TimelinePrompt(b, c.(notice := notice)))
  }

  function ContextOf(st: Stored<State>, ev: Event, turn: nat): Context<State> {
    Context(ev, turn, st.app, st.lang, "")
  }

  function AfterHandle(c: Context<State>, d: Decided<State>): Context<State> {
    c.(state := d.state, lang := d.lang)
  }

  lemma PostStep(b: Bundle, fetch: Option<seq<Post>>, st: Stored<State>, ev: Event, turn: nat)
    requires st.screen == "post"
    ensures var c := ContextOf(st, ev, turn);
            var d := PostHandle(b, c, LastInput(ev));
            Step(ReaderApp(b, fetch), st, ev, turn) ==
            Ok(if !Types(ev) then ShowPost(b, c, "")
               else if d.action.next == "timeline" then ShowTimeline(b, AfterHandle(c, d), "")
               else ShowPost(b, AfterHandle(c, d), d.action.text))
  {
    hide PostPrompt, TimelinePrompt, MenuPrompt, MenuHandle, TimelineHandle, Shrunk, WithNotice, Translate, PostPages;
  }

  lemma TimelineStep(b: Bundle, fetch: Option<seq<Post>>, st: Stored<State>, ev: Event, turn: nat)
    requires st.screen == "timeline"
    ensures var c := ContextOf(st, ev, turn);
            var d := TimelineHandle(b, c, LastInput(ev));
            var r := Step(ReaderApp(b, fetch), st, ev, turn);
            && r.Ok?
            && (!Types(ev) ==> r.value == ShowTimeline(b, c, ""))
            && (Types(ev) && d.action.end ==>
              LastInput(ev) == "0" && r.value == Turned(Response(Shrunk(Translate(b, st.lang, "session.ended")), true), None))
            && (Types(ev) && !d.action.end ==>
              r.value == if d.action.next == "post" then ShowPost(b, AfterHandle(c, d), "")
                         else ShowTimeline(b, AfterHandle(c, d), d.action.text))
  {
    hide PostPrompt, TimelinePrompt, MenuPrompt, MenuHandle, PostHandle, Shrunk, WithNotice, Translate, Choice;
  }

  lemma MenuStep(b: Bundle, fetch: Option<seq<Post>>, st: Stored<State>, ev: Event, turn: nat)
    requires st.screen == "menu"
    ensures var c := ContextOf(st, ev, turn);
            var r := Step(ReaderApp(b, fetch), st, ev, turn);
            && r.Ok?
            && (r.value.state.Some? ==>
              || r.value.state.value == Stored("menu", st.lang, st.app)
              || (Types(ev) && fetch.Some? && r.value == ShowTimeline(b, c.(state := st.app.(posts := fetch.value)), "")))
  {
    hide PostPrompt, TimelinePrompt, TimelineHandle, PostHandle, Shrunk, WithNotice, Translate, MenuText;
  }

  /** "1" on the menu leads to the timeline of what the instance answers. */
  lemma MenuFetches(b: Bundle, posts: seq<Post>, st: Stored<State>, ev: Event, turn: nat)
    requires st.screen == "menu" && Types(ev) && LastInput(ev) == "1"
    ensures Step(ReaderApp(b, Some(posts)), st, ev, turn) ==
            Ok(ShowTimeline(b, ContextOf(st, ev, turn).(state := st.app.(posts := posts)), ""))
  {
    hide PostPrompt, TimelinePrompt, TimelineHandle, PostHandle, Shrunk, WithNotice, Translate, MenuText;
  }

  /** The other two rows of the menu lead to the closing notice and to the farewell,
      and both end the dialogue. */
  lemma MenuEnds(b: Bundle, fetch: Option<seq<Post>>, st: Stored<State>, ev: Event, turn: nat)
    requires st.screen == "menu" && Types(ev) && LastInput(ev) in {"0", "2"}
    ensures var key := if LastInput(ev) == "2" then "about.body" else "session.ended";
            Step(ReaderApp(b, fetch), st, ev, turn) == Ok(Turned(Response(Shrunk(Translate(b, st.lang, key)), true), None))
  {
    hide PostPrompt, TimelinePrompt, TimelineHandle, PostHandle, Shrunk, Translate, MenuText;
  }

  /** A choice the menu does not know, or an instance that does not answer, leaves
      the dialogue on the menu under the reason. */
  lemma MenuStays(b: Bundle, fetch: Option<seq<Post>>, st: Stored<State>, ev: Event, turn: nat)
    requires st.screen == "menu" && Types(ev)
    requires LastInput(ev) !in {"0", "1", "2"} || (LastInput(ev) == "1" && fetch.None?)
    ensures var c := ContextOf(st, ev, turn);
            var notice := Translate(b, st.lang, if LastInput(ev) == "1" then "error.fetch" else "error.choice");
            Step(ReaderApp(b, fetch), st, ev, turn) ==
            Ok(Turned(Response(Shrunk(WithNotice(notice, MenuPrompt(b, c).body)), false),
                      Some(Stored("menu", st.lang, st.app))))
  {
    hide PostPrompt, TimelinePrompt, TimelineHandle, PostHandle, Shrunk, WithNotice, Translate, MenuText;
  }

  // ---------- what every reachable state keeps ----------

  /** A state the reader can be in: it lists no more posts than it has, reads one
      of them, and is on one of its pages, or on page 0 when there are none. */
  ghost predicate Reachable(b: Bundle, st: Stored<State>) {
    && st.screen in {"menu", "timeline", "post"} && st.lang != ""
    && st.app.listed <= |st.app.posts|
    && (st.screen == "post" ==> st.app.cursor < |st.app.posts|)
    && (st.screen == "post" ==>
      var pages := PostPages(st.app, NavOf(b, st.lang)); st.app.page < |pages| || (pages == [] && st.app.page == 0))
  }

  lemma ReaderStartsReachable(b: Bundle, fetch: Option<seq<Post>>)
    ensures var app := ReaderApp(b, fetch); WellDeclared(app) && Reachable(b, Resume(app, Blank(app)))
  {
  }

  lemma ShownPostIsReachable(b: Bundle, c: Context<State>, notice: string)
    requires c.lang != "" && c.state.listed <= |c.state.posts| && c.state.cursor < |c.state.posts|
    requires PostPages(c.state, NavOf(b, c.lang)) == [] ==> c.state.page == 0
    ensures Reachable(b, ShowPost(b, c, notice).state.value)
  {
    hide PagesOf, Shrunk, WithNotice, PostBody, Translate;
  }

  lemma ShownTimelineIsReachable(b: Bundle, c: Context<State>, notice: string)
    requires c.lang != ""
    ensures Reachable(b, ShowTimeline(b, c, notice).state.value)
  {
    hide Shrunk, WithNotice, Translate, Shown, FitText, Lines, Fits;
  }

  /** Every turn, whatever the event and whatever the instance answers, keeps the
      reader's state sound. */
  lemma StepKeepsReachable(b: Bundle, fetch: Option<seq<Post>>, st: Stored<State>, ev: Event, turn: nat)
    requires Reachable(b, st)
    ensures var r := Step(ReaderApp(b, fetch), st, ev, turn);
            r.Ok? && (r.value.state.Some? ==> Reachable(b, r.value.state.value))
  {
    hide Step, ReaderApp, PostPrompt, TimelinePrompt, Shrunk, WithNotice, Translate, PagesOf, Atoi, ShowPost, ShowTimeline;
    var c := ContextOf(st, ev, turn);
    if st.screen == "post" {
      PostStep(b, fetch, st, ev, turn);
      var d := PostHandle(b, c, LastInput(ev));
      var after := if Types(ev) then AfterHandle(c, d) else c;
      ShownPostIsReachable(b, after, if Types(ev) then d.action.text else "");
      ShownTimelineIsReachable(b, after, "");
    } else if st.screen == "timeline" {
      TimelineStep(b, fetch, st, ev, turn);
      var d := TimelineHandle(b, c, LastInput(ev));
      var after := if Types(ev) then AfterHandle(c, d) else c;
      ShownTimelineIsReachable(b, after, if Types(ev) then d.action.text else "");
      if Types(ev) && d.action.next == "post" {
        ShownPostIsReachable(b, after, "");
      }
    } else {
      MenuStep(b, fetch, st, ev, turn);
      if fetch.Some? {
        ShownTimelineIsReachable(b, c.(state := st.app.(posts := fetch.value)), "");
      }
    }
  }

  // ---------- moving between pages ----------

  /** The turn shows page `page` of the post that `st` is on, under `notice`, and
      stays there. */
  ghost predicate ShowsPage(b: Bundle, r: Try<Turned<State>>, st: Stored<State>, page: int, notice: string) {
    var nav := NavOf(b, st.lang);
    && st.app.cursor < |st.app.posts| && 0 <= page < |PagesOf(st.app.posts[st.app.cursor], nav)|
    && r == Ok(Turned(Response(Shrunk(WithNotice(notice, PageScreen(st.app.posts[st.app.cursor], nav, page))), false),
                      Some(st.(app := st.app.(page := page)))))
  }

  /** Next and then Prev lead back to the same screen and state. */
  lemma NextThenPrevReturns(b: Bundle, fetch: Option<seq<Post>>, st: Stored<State>, next: Event, prev: Event, turn: nat)
    requires Reachable(b, st) && st.screen == "post"
    requires Types(next) && LastInput(next) == "1" && Types(prev) && LastInput(prev) == "2"
    requires st.app.page + 1 < |PostPages(st.app, NavOf(b, st.lang))|
    ensures var there := Step(ReaderApp(b, fetch), st, next, turn);
            && there.Ok? && there.value.state.Some?
            && ShowsPage(b, Step(ReaderApp(b, fetch), there.value.state.value, prev, turn + 1), st, st.app.page, "")
  {
    hide Step, ReaderApp, Shrunk, WithNotice, Translate, PagesOf, PageScreen;
    PostStep(b, fetch, st, next, turn);
    var there := Step(ReaderApp(b, fetch), st, next, turn).value.state.value;
    PostStep(b, fetch, there, prev, turn + 1);
  }

  // ---------- a post is paged without loss ----------

  /** The pages of a post are all of it but for white space between them, and show
      every visible rune once and in order. */
  ghost predicate PagedWhole(p: Post, nav: Nav) {
    && Partitions(PagesOf(p, nav), p.text)
    && Solid(Concat(PagesOf(p, nav))) == Solid(p.text)
  }

  lemma PostIsPagedWhole(p: Post, nav: Nav)
    requires ReserveFor(p, nav) <= 68
    ensures PagedWhole(p, nav)
  {
    hide ReserveFor, Pages, Partitions, CanPage, Solid, Concat;
    SmallReserveHasRoom(p.text, ReserveFor(p, nav));
    PaginateIsComplete(p.text, ReserveFor(p, nav));
    PagesKeepEveryRune(p.text, ReserveFor(p, nav));
  }

  // ---------- the reserve arithmetic ----------

  ghost predicate PlainNav(nav: Nav) {
    AllBasic(nav.next) && AllBasic(nav.prev) && AllBasic(nav.back)
  }

  lemma JoinTwo(a: string, b: string)
    ensures Join([a], " ") == a && Join([a, b], " ") == a + " " + b
  {
    assert [a, b][1..] == [b];
  }

  lemma JoinThree(a: string, b: string, c: string)
    ensures Join([a, b, c], " ") == a + " " + (b + " " + c)
  {
    assert [a, b, c][1..] == [b, c];
    JoinTwo(b, c);
  }

  /** Plain navigation text is untouched by ToGSM, so its runes are its units. */
  lemma NavIsPlain(nav: Nav, page: nat, pages: nat)
    requires PlainNav(nav) && page < pages
    ensures AllBasic(NavText(Controls(nav, page, pages)))
    ensures |NavText(Controls(nav, page, pages))| <= |nav.next| + |nav.prev| + |nav.back| + 2
    ensures |NavText([nav.next, nav.prev, nav.back])| == |nav.next| + |nav.prev| + |nav.back| + 2
    ensures 0 < page < pages - 1 ==> Controls(nav, page, pages) == [nav.next, nav.prev, nav.back]
  {
    hide InGsm, Join, IsBasic;
    JoinControls(nav, page, pages);
    JoinThree(nav.next, nav.prev, nav.back);
    PlainJoin(nav.next, nav.prev, nav.back);
    PlainStaysPlain(Join(Controls(nav, page, pages), " "));
    PlainStaysPlain(Join([nav.next, nav.prev, nav.back], " "));
  }

  lemma JoinControls(nav: Nav, page: nat, pages: nat)
    requires page < pages
    ensures var a, b, c := nav.next, nav.prev, nav.back;
            Join(Controls(nav, page, pages), " ") ==
            if 0 < page && page + 1 < pages then a + " " + (b + " " + c)
            else if page + 1 < pages then a + " " + c
            else if 0 < page then b + " " + c
            else c
  {
    hide Join;
    var a, b, c := nav.next, nav.prev, nav.back;
    JoinThree(a, b, c);
    JoinTwo(a, c);
    JoinTwo(b, c);
    JoinTwo(c, "");
    assert Controls(nav, page, pages) ==
           if 0 < page && page + 1 < pages then [a, b, c]
           else if page + 1 < pages then [a, c]
           else if 0 < page then [b, c]
           else [c];
  }

  lemma PlainJoin(a: string, b: string, c: string)
    ensures AllBasic(a) && AllBasic(b) && AllBasic(c) ==>
              AllBasic(a + " " + (b + " " + c)) && AllBasic(a + " " + c) && AllBasic(b + " " + c)
  {
    hide IsBasic;
    SpaceIsBasic();
  }

  lemma SpaceIsBasic()
    ensures IsBasic(' ')
  {
  }

  lemma PlainStaysPlain(s: string)
    ensures AllBasic(s) ==> InGsm(s) == s
  {
    hide IsBasic;
    if AllBasic(s) {
      forall c | c in s ensures IsGsm(c) {}
    }
  }

  // ---------- decimal counters ----------

  lemma {:induction false} DecimalIsPlain(n: nat)
    ensures AllBasic(Decimal(n)) && forall c | c in Decimal(n) :: IsDigit(c)
    ensures |Decimal(n)| >= 1 && (n >= 1 ==> Decimal(n)[0] != '0')
  {
    if n >= 10 {
      DecimalIsPlain(n / 10);
    }
  }

  lemma DecimalWidth(n: nat)
    ensures n < 10 ==> |Decimal(n)| == 1
    ensures 10 <= n < 100 ==> |Decimal(n)| == 2
    ensures n >= 100 ==> |Decimal(n)| >= 3
  {
    if n >= 100 {
      DecimalIsPlain(n / 100);
      assert n / 10 / 10 == n / 100;
    }
  }

  /** The digits of the counter on page `page` of `pages`. */
  function CounterWidth(page: nat, pages: nat): nat {
    |Decimal(page + 1)| + |Decimal(pages)|
  }

  /** Up to 99 pages the counter is no wider than the one reserved. */
  lemma CounterFitsReserve(page: nat, pages: nat)
    requires page < pages <= 99
    ensures CounterWidth(page, pages) <= 4
  {
    DecimalWidth(page + 1);
    DecimalWidth(pages);
  }

  /** The header is GSM text: the label, which may hold extension characters, and
      a plain counter. */
  lemma HeaderShape(p: Post, page: nat, pages: nat)
    ensures var h, l := PostHeader(p, page, pages), LabelOf(p.author, MAX_HEADER_LEN, "Post");
            && AllGsm(h) && Extensions(h) == Extensions(l)
            && |h| == |l| + (if pages > 1 then 4 + |Decimal(page)| + |Decimal(pages)| else 0)
            && |l| <= MAX_HEADER_LEN
  {
    hide LabelOf, IsBasic, IsExtension;
    var l := LabelOf(p.author, MAX_HEADER_LEN, "Post");
    var counter := if pages > 1 then " (" + Decimal(page) + "/" + Decimal(pages) + ")" else "";
    PlainPost();
    LabelIsSafe(p.author, MAX_HEADER_LEN, "Post");
    PlainCounter(page, pages);
    PlainHasNoExtension(counter);
    ExtensionsAppend(l, counter);
    AllGsmAppend(l, counter);
  }

  lemma PlainPost()
    ensures AllBasic("Post") && '\n' !in "Post"
  {
  }

  lemma PlainCounter(page: nat, pages: nat)
    ensures AllBasic(" (" + Decimal(page) + "/" + Decimal(pages) + ")")
  {
    DecimalIsPlain(page);
    DecimalIsPlain(pages);
  }

  lemma {:induction false} PlainHasNoExtension(s: string)
    requires AllBasic(s)
    ensures Extensions(s) == 0 && AllGsm(s)
  {
    TallyOfBasic(GSM7, s);
    SeptetsOf(s);
  }

  lemma {:induction false} ExtensionsAppend(s: string, t: string)
    ensures Extensions(s + t) == Extensions(s) + Extensions(t)
  {
    hide IsExtension;
    if t == "" {
      assert s + t == s;
    } else {
      ExtensionsAppend(s, t[..|t| - 1]);
      assert (s + t)[..|s + t| - 1] == s + t[..|t| - 1];
    }
  }

  // ---------- what a post screen costs ----------

  /** Around a body, a GSM header and plain navigation cost their runes, and on a
      GSM page the header's extension characters once more. */
  lemma FramedCost(h: string, body: string, nav: string)
    requires AllGsm(h) && AllBasic(nav)
    ensures var s := h + "\n" + body + "\n" + nav;
            && (AllGsm(s) <==> AllGsm(body))
            && Cost(s) == |h| + |nav| + 2 + Cost(body) + (if AllGsm(body) then Extensions(h) else 0)
  {
    hide IsBasic, IsExtension, Tally, Extensions;
    var s := h + "\n" + body + "\n" + nav;
    PlainBreak();
    TallyOfBasic(GSM7, nav);
    AllGsmAppend(h + "\n" + body + "\n", nav);
    AllGsmAppend(h + "\n" + body, "\n");
    AllGsmAppend(h + "\n", body);
    AllGsmAppend(h, "\n");
    var a := AlphabetOf(body);
    FramedTally(a, h, body, nav);
    UnitsOfGsm(h);
    SeptetsOf(h);
    TallyOfBasic(a, nav);
  }

  lemma PlainBreak()
    ensures AllBasic("\n") && AllGsm("\n")
  {
  }

  lemma FramedTally(a: Alphabet, h: string, body: string, nav: string)
    ensures Tally(a, h + "\n" + body + "\n" + nav) == Tally(a, h) + Tally(a, body) + Tally(a, nav) + 2
  {
    hide IsBasic, IsExtension, Tally;
    TallyAppend(a, h + "\n" + body + "\n", nav);
    TallyAppend(a, h + "\n" + body, "\n");
    TallyAppend(a, h + "\n", body);
    TallyAppend(a, h, "\n");
    PlainBreak();
    TallyOfBasic(a, "\n");
  }

  /** The reserve, spelled out: label, widest counter, controls, two breaks. */
  lemma ReserveIs(p: Post, nav: Nav)
    requires PlainNav(nav)
    ensures ReserveFor(p, nav) ==
            |LabelOf(p.author, MAX_HEADER_LEN, "Post")| + 8 + (|nav.next| + |nav.prev| + |nav.back| + 2) + 2
  {
    hide LabelOf, InGsm, Join, PlainNav, AllBasic;
    HeaderShape(p, WIDEST_PAGE_COUNTER, WIDEST_PAGE_COUNTER);
    DecimalWidth(WIDEST_PAGE_COUNTER);
    NavIsPlain(nav, 0, 1);
  }

  /** The screen of a page costs at most what was reserved beside the page, but
      for a counter that is too wide and extension characters on a GSM page. */
  lemma PageScreenCost(p: Post, nav: Nav, page: nat)
    requires PlainNav(nav) && page < |PagesOf(p, nav)|
    ensures var pages := PagesOf(p, nav);
            var author, screen := LabelOf(p.author, MAX_HEADER_LEN, "Post"), PageScreen(p, nav, page);
            var over := (if |pages| > 1 then CounterWidth(page, |pages|) - 4 else -8)
                        + (if AllGsm(pages[page]) then Extensions(author) else 0);
            && AlphabetOf(screen) == AlphabetOf(pages[page])
            && Cost(screen) <= Cost(pages[page]) + ReserveFor(p, nav) + over
            && (0 < page < |pages| - 1 ==> Cost(screen) == Cost(pages[page]) + ReserveFor(p, nav) + over)
  {
    hide LabelOf, InGsm, Join, PlainNav, AllBasic, PagesOf, Cost, AllGsm, Decimal, PostHeader, NavText, ReserveFor, Controls;
    var pages := PagesOf(p, nav);
    var h, foot := PostHeader(p, page + 1, |pages|), NavText(Controls(nav, page, |pages|));
    ReserveIs(p, nav);
    NavIsPlain(nav, page, |pages|);
    HeaderShape(p, page + 1, |pages|);
    FramedCost(h, pages[page], foot);
  }

  /** The reserve arithmetic holds: plain navigation, a counter no wider than the
      reserved one, and an author label without extension characters (or a UCS-2
      page, where they cost one unit) make every screen of a post fit, so Shrink
      shows it whole, navigation and all. */
  lemma PostScreensFit(p: Post, nav: Nav, page: nat)
    requires PlainNav(nav) && page < |PagesOf(p, nav)|
    requires |PagesOf(p, nav)| == 1 || CounterWidth(page, |PagesOf(p, nav)|) <= 4
    requires Extensions(LabelOf(p.author, MAX_HEADER_LEN, "Post")) == 0 || !AllGsm(PagesOf(p, nav)[page])
    ensures Fits(PageScreen(p, nav, page)) && Shrunk(PageScreen(p, nav, page)) == PageScreen(p, nav, page)
  {
    hide LabelOf, PlainNav, AllGsm, PageScreen, ReserveFor, Cost, Pages, Decimal;
    PageScreenCost(p, nav, page);
    PagesFit(p.text, ReserveFor(p, nav), page);
    ShrinkFits(PageScreen(p, nav, page));
  }

  // ---------- exactly when the reserve is enough ----------

  /** An unbreakable body of `m` full pages of `k` runes. */
  function Slab(k: nat, m: nat): string {
    Repeat('x', k * m)
  }

  lemma SlabCost(n: nat, reserve: int)
    ensures AllGsm(Repeat('x', n)) && Cost(Repeat('x', n)) == n
    ensures Affordable(Repeat('x', n), reserve) <==> n + reserve <= MAX_SEPTETS
  {
    PlainRun(n);
    TallyOfBasic(GSM7, Repeat('x', n));
  }

  lemma PlainRun(n: nat)
    ensures AllBasic(Repeat('x', n)) && AllGsm(Repeat('x', n))
  {
    assert IsBasic('x');
  }

  lemma SlabFit(w: nat, k: nat)
    requires 0 < k <= MAX_SEPTETS
    ensures FitCount(Repeat('x', w), MAX_SEPTETS - k) == Min(w, k)
  {
    hide FitCount, Affordable;
    var n := Min(w, k);
    var run := Repeat('x', w);
    var fit := FitCount(run, MAX_SEPTETS - k);
    assert run[..n] == Repeat('x', n);
    SlabCost(n, MAX_SEPTETS - k);
    if n > 0 {
      FitCountIsOptimal(run, MAX_SEPTETS - k, n);
    }
    if fit > n {
      assert run[..fit] == Repeat('x', fit);
      SlabCost(fit, MAX_SEPTETS - k);
      FitCountIsOptimal(run, MAX_SEPTETS - k, fit);
    }
  }

  lemma SlabBreak(n: nat)
    ensures BreakAt(Repeat('x', n)) == n
  {
    hide BreakAt;
    BreakSplitsNoWord(Repeat('x', n));
    BreakBounds(Repeat('x', n));
  }

  lemma RunIsTrim(n: nat)
    ensures TrimRight(Repeat('x', n)) == Repeat('x', n) && TrimSpace(Repeat('x', n)) == Repeat('x', n)
  {
    assert !IsSpace('x');
  }

  lemma SlabArithmetic(k: nat, m: nat, j: nat)
    requires j < m
    ensures k * (j + 1) == k * j + k && k * j + k <= k * m
  {
    var r: nat := m - j - 1;
    assert k * (j + 1 + r) == k * j + k + k * r;
    assert k * r >= 0;
  }

  function Copies(s: string, n: nat): seq<string> {
    if n == 0 then [] else [s] + Copies(s, n - 1)
  }

  lemma {:induction false} CopiesAt(s: string, n: nat)
    ensures |Copies(s, n)| == n && forall i | 0 <= i < n :: Copies(s, n)[i] == s
  {
    if n > 0 {
      CopiesAt(s, n - 1);
    }
  }

  lemma {:induction false} SlabPagesFrom(k: nat, m: nat, j: nat, at: nat)
    requires 0 < k <= MAX_SEPTETS && j <= m && at == k * j && at <= k * m
    ensures PagesFrom(Slab(k, m), at, MAX_SEPTETS - k) == Copies(Repeat('x', k), m - j)
    decreases m - j
  {
    hide Cut, PageText, PagesFrom, Visible;
    if j == m {
      NoPage(Slab(k, m), at, MAX_SEPTETS - k);
    } else {
      SlabArithmetic(k, m, j);
      SlabPagesFrom(k, m, j + 1, at + k);
      SlabCut(k, m, at);
      XIsVisible();
      PageThenRest(Slab(k, m), at, k, MAX_SEPTETS - k);
    }
  }

  lemma PageThenRest(runes: string, at: nat, n: nat, reserve: int)
    requires at < |runes| && !IsSpace(runes[at]) && n == Cut(runes, at, reserve) && n > 0
    ensures PagesFrom(runes, at, reserve) == [PageText(runes, at, n)] + PagesFrom(runes, at + n, reserve)
  {
    hide Cut, PageText;
  }

  lemma XIsVisible()
    ensures !IsSpace('x')
  {
  }

  lemma SlabCut(k: nat, m: nat, at: nat)
    requires 0 < k <= MAX_SEPTETS && at + k <= k * m
    ensures var runes := Slab(k, m); Cut(runes, at, MAX_SEPTETS - k) == k && PageText(runes, at, k) == Repeat('x', k)
  {
    hide BreakAt, FitCount, TrimRight;
    var runes := Slab(k, m);
    var w := Min(MAX_SEPTETS, |runes| - at);
    assert Window(runes, at) == Repeat('x', w);
    SlabFit(w, k);
    assert Repeat('x', w)[..k] == Repeat('x', k);
    SlabBreak(k);
    assert runes[at..at + k] == Repeat('x', k);
    RunIsTrim(k);
  }

  lemma SlabPages(k: nat, m: nat)
    requires 0 < k <= MAX_SEPTETS
    ensures Pages(Slab(k, m), MAX_SEPTETS - k) == Copies(Repeat('x', k), m)
  {
    hide PagesFrom, TrimSpace;
    RunIsTrim(k * m);
    SlabPagesFrom(k, m, 0, 0);
    PlainRun(k * m);
  }

  /** A post whose body fills `m` pages to the last septet. */
  ghost predicate FillsPages(p: Post, nav: Nav, k: nat, m: nat) {
    0 < k && k + ReserveFor(p, nav) == MAX_SEPTETS && p.text == Slab(k, m)
  }

  lemma FilledPages(p: Post, nav: Nav, k: nat, m: nat)
    requires FillsPages(p, nav, k, m)
    ensures |PagesOf(p, nav)| == m
    ensures forall i | 0 <= i < m :: PagesOf(p, nav)[i] == Repeat('x', k)
  {
    hide Pages, Slab, ReserveFor, Copies;
    SlabPages(k, m);
    CopiesAt(Repeat('x', k), m);
  }

  /** On a middle page of such a post nothing is to spare: the screen fits exactly
      when the counter's digits and the label's extension characters together
      stay within the four reserved for the counter. */
  lemma MiddlePageFitsIff(p: Post, nav: Nav, k: nat, m: nat, page: nat)
    requires PlainNav(nav) && FillsPages(p, nav, k, m)
    requires m == |PagesOf(p, nav)| && 0 < page < m - 1
    ensures Fits(PageScreen(p, nav, page)) <==>
            CounterWidth(page, m) + Extensions(LabelOf(p.author, MAX_HEADER_LEN, "Post")) <= 4
  {
    hide LabelOf, PlainNav, PageScreen, Cost, Pages, Decimal, Extensions, NavText, Slab, PagesOf, ReserveFor, AllGsm;
    FilledPages(p, nav, k, m);
    SlabCost(k, 0);
    PageScreenCost(p, nav, page);
  }

  ghost predicate AllPostsFit(author: string, nav: Nav) {
    forall text: string, page: nat |
      page < |PagesOf(Post(author, text, ""), nav)|
      && CounterWidth(page, |PagesOf(Post(author, text, ""), nav)|) <= 4 ::
      Fits(PageScreen(Post(author, text, ""), nav, page))
  }

  /** The reserve counts the author label in runes, which is enough for every
      post exactly when the label has no extension character. */
  lemma ReserveIsEnoughIff(author: string, nav: Nav)
    requires PlainNav(nav) && ReserveFor(Post(author, "", ""), nav) < MAX_SEPTETS
    ensures AllPostsFit(author, nav) <==> Extensions(LabelOf(author, MAX_HEADER_LEN, "Post")) == 0
  {
    hide LabelOf, PlainNav, PageScreen, Fits, PagesOf, Decimal, ReserveFor, Extensions, Slab;
    if Extensions(LabelOf(author, MAX_HEADER_LEN, "Post")) == 0 {
      forall text: string, page: nat |
        page < |PagesOf(Post(author, text, ""), nav)|
        && CounterWidth(page, |PagesOf(Post(author, text, ""), nav)|) <= 4
        ensures Fits(PageScreen(Post(author, text, ""), nav, page))
      {
        PostScreensFit(Post(author, text, ""), nav, page);
      }
    } else {
      var k := MAX_SEPTETS - ReserveFor(Post(author, "", ""), nav);
      var p := Post(author, Slab(k, 12), "");
      SameReserve(author, "", p.text, nav);
      FilledPages(p, nav, k, 12);
      MiddlePageFitsIff(p, nav, k, 12, 9);
      DecimalWidth(10);
      DecimalWidth(12);
      assert CounterWidth(9, |PagesOf(p, nav)|) == 4 && !Fits(PageScreen(p, nav, 9));
    }
  }

  lemma SameReserve(author: string, text: string, other: string, nav: Nav)
    ensures ReserveFor(Post(author, text, ""), nav) == ReserveFor(Post(author, other, ""), nav)
  {
  }

  // ---------- what a page and a row tell ----------

  /** What a screen tells of its page: the author on the first line, then, when there
      are several, which page it is and of how many, the page itself, and the
      controls. */
  lemma PageTells(p: Post, nav: Nav, page: nat)
    requires page < |PagesOf(p, nav)|
    ensures var pages := PagesOf(p, nav);
            var place, count := Decimal(page + 1), Decimal(|pages|);
            && Natural(place) == Some(page + 1) && Natural(count) == Some(|pages|)
            && exists author: string ::
                 && NamesAuthor(author, p, "Post")
                 && PageScreen(p, nav, page) ==
                    author + (if |pages| > 1 then " (" + place + "/" + count + ")" else "")
                    + "\n" + pages[page] + "\n" + NavText(Controls(nav, page, |pages|))
  {
    hide PagesOf, LabelOf, Natural, Decimal, NamesAuthor, NavText, Controls;
    NaturalOfDecimal(page + 1);
    NaturalOfDecimal(|PagesOf(p, nav)|);
    PlainPost();
    LabelNamesAuthor(p, "Post");
  }

  /** A name for the author of a post: at most 28 runes of GSM text on one line,
      showing the visible runes of the name in that alphabet up to a cut, or, when
      there are fewer than two of them, the given stand-in. */
  ghost predicate NamesAuthor(author: string, p: Post, standIn: string) {
    && |author| <= 28 && AllGsm(author) && '\n' !in author
    && if |Solid(Rewritten(p.author))| < 2 then author == Truncated(standIn, 28)
       else exists out :: author == Truncated(out, 28) && Solid(out) == Solid(Rewritten(p.author))
  }

  lemma LabelNamesAuthor(p: Post, standIn: string)
    requires AllBasic(standIn) && '\n' !in standIn
    ensures NamesAuthor(LabelOf(p.author, MAX_HEADER_LEN, standIn), p, standIn)
  {
    hide LabelOf, Truncated, Solid, Rewritten, IsBasic, IsExtension;
    LabelIsSafe(p.author, MAX_HEADER_LEN, standIn);
    LabelIs(p.author, MAX_HEADER_LEN, standIn);
  }

  /** A stored page past the last, of a post that has any, is shown and kept as the
      last; another is kept as it is. */
  lemma StalePageShowsLast(b: Bundle, c: Context<State>)
    ensures var n := |PostPages(c.state, NavOf(b, c.lang))|;
            if 0 < n <= c.state.page then PostPrompt(b, c) == PostPrompt(b, c.(state := c.state.(page := n - 1)))
            else PostPrompt(b, c).state == c.state
  {
    hide PagesOf, PageScreen, Translate;
  }

  // ---------- the timeline ----------

  lemma {:induction false} NaturalOfDecimal(n: nat)
    ensures Natural(Decimal(n)) == Some(n)
  {
    if n >= 10 {
      NaturalOfDecimal(n / 10);
      var s := Decimal(n);
      assert s[..|s| - 1] == Decimal(n / 10);
    }
  }

  lemma TrimOfDecimal(n: nat)
    ensures TrimSpace(Decimal(n)) == Decimal(n)
  {
    hide IsSpace;
    DecimalIsPlain(n);
    var s := Decimal(n);
    DigitIsVisible(s[0]);
    DigitIsVisible(s[|s| - 1]);
  }

  lemma DigitIsVisible(c: char)
    requires IsDigit(c)
    ensures !IsSpace(c) && c != '+' && c != '-'
  {
  }

  /** The key shown beside an item selects that item, and no other number is a
      key of it. */
  lemma KeySelectsItem(n: nat, listed: nat)
    ensures Choice(Decimal(n), listed) == if 1 <= n <= listed then Some(n) else None
  {
    hide Natural, TrimSpace, Decimal;
    TrimOfDecimal(n);
    NaturalOfDecimal(n);
    DecimalIsPlain(n);
    DigitIsVisible(Decimal(n)[0]);
  }

  /** An input chooses the n-th item exactly when it is that number in decimal, with
      any leading zeros, perhaps after a plus sign, and within white space. */
  lemma ChoiceIff(input: string, listed: nat, n: nat)
    ensures Choice(input, listed) == Some(n) <==>
            && 1 <= n <= listed
            && exists sign: string, zeros: nat | sign in {"", "+"} :: TrimSpace(input) == sign + Numeral(zeros, n)
  {
    hide Natural, TrimSpace, Decimal, Numeral;
    var t := TrimSpace(input);
    if Choice(input, listed) == Some(n) {
      var sign, digits := if t[0] == '+' then "+" else "", if t[0] == '+' then t[1..] else t;
      var zeros := NaturalIsNumeral(digits, n);
      assert t == sign + Numeral(zeros, n);
    }
    if sign: string, zeros: nat :| sign in {"", "+"} && t == sign + Numeral(zeros, n) {
      AtoiOfNumeral(sign, zeros, n);
    }
  }

  lemma AtoiOfNumeral(sign: string, zeros: nat, n: nat)
    requires sign in {"", "+"}
    ensures Atoi(sign + Numeral(zeros, n)) == Some(n)
  {
    hide Natural, Decimal, Numeral;
    var digits := Numeral(zeros, n);
    NaturalOfNumeral(zeros, n);
    NumeralIsDigits(zeros, n);
    assert digits[0] in digits;
    if sign == "" {
      assert sign + digits == digits;
    } else {
      assert (sign + digits)[1..] == digits;
    }
  }

  /** `n` in decimal after so many zeros. */
  function Numeral(zeros: nat, n: nat): string {
    Repeat('0', zeros) + Decimal(n)
  }

  lemma NumeralIsDigits(zeros: nat, n: nat)
    ensures Numeral(zeros, n) != "" && forall c | c in Numeral(zeros, n) :: c != '+' && c != '-'
  {
    hide Decimal;
    DecimalIsPlain(n);
  }

  lemma {:induction false} NaturalOfNumeral(zeros: nat, n: nat)
    ensures Natural(Numeral(zeros, n)) == Some(n)
    decreases zeros + n
  {
    hide Natural;
    if n >= 10 {
      NaturalOfNumeral(zeros, n / 10);
      NaturalSnoc(Numeral(zeros, n / 10), n / 10, n % 10);
      assert Numeral(zeros, n) == Numeral(zeros, n / 10) + [Digit(n % 10)];
    } else if zeros > 0 {
      NaturalOfNumeral(zeros - 1, 0);
      NaturalSnoc(Numeral(zeros - 1, 0), 0, n);
      assert Numeral(zeros, n) == Numeral(zeros - 1, 0) + [Digit(n)];
    } else {
      NaturalOfDecimal(n);
      assert Numeral(0, n) == Decimal(n);
    }
  }

  lemma NaturalSnoc(s: string, m: nat, d: nat)
    requires Natural(s) == Some(m) && d < 10
    ensures Natural(s + [Digit(d)]) == Some(10 * m + d)
  {
    assert (s + [Digit(d)])[..|s|] == s;
  }

  lemma {:induction false} NaturalIsNumeral(s: string, n: nat) returns (zeros: nat)
    requires Natural(s) == Some(n)
    ensures s == Numeral(zeros, n)
  {
    var d := s[|s| - 1];
    if |s| == 1 {
      zeros := 0;
    } else {
      var m := Natural(s[..|s| - 1]).value;
      zeros := NaturalIsNumeral(s[..|s| - 1], m);
      assert s == s[..|s| - 1] + [d];
      if m == 0 {
        zeros := zeros + 1;
        assert Numeral(zeros - 1, 0) == Repeat('0', zeros);
      }
    }
  }

  lemma {:induction false} ItemKeys(posts: seq<Post>, i: nat)
    requires i < |posts|
    ensures TimelineItems(posts)[i] == TimelineItem(posts[i], i)
  {
    if i < |posts| - 1 {
      ItemKeys(posts[..|posts| - 1], i);
    }
  }

  /** What the i-th row tells: its place as the key; the author, or "Post" and the
      place; and in brackets the age, when there is one. */
  lemma ItemTells(posts: seq<Post>, i: nat)
    requires i < |posts|
    ensures var item, p := TimelineItems(posts)[i], posts[i];
            && Natural(item.key) == Some(i + 1)
            && exists author: string ::
                 && NamesAuthor(author, p, "Post " + item.key)
                 && item.text == if p.when == "" then author else author + " (" + p.when + ")"
  {
    hide LabelOf, Natural, Decimal, NamesAuthor, TimelineItems, AllBasic;
    var p, place := posts[i], Decimal(i + 1);
    ItemKeys(posts, i);
    NaturalOfDecimal(i + 1);
    StandInIsPlain(i + 1);
    var author := LabelOf(p.author, MAX_HEADER_LEN, "Post " + place);
    LabelNamesAuthor(p, "Post " + place);
    RowText(author, p.when);
  }

  lemma RowText(author: string, age: string)
    ensures author + (if age != "" then " (" + age + ")" else "") == if age == "" then author else author + " (" + age + ")"
  {
  }

  lemma StandInIsPlain(n: nat)
    ensures AllBasic("Post " + Decimal(n)) && '\n' !in "Post " + Decimal(n)
  {
    hide IsBasic, Decimal;
    DecimalIsPlain(n);
    PostIsPlain();
  }

  lemma PostIsPlain()
    ensures AllBasic("Post ") && '\n' !in "Post "
  {
  }

  /** A timeline screen, also one under a notice, is shown whole: its title, a
      line for each of the first `listed` posts and the way out. As many posts
      are listed as fit. */
  lemma TimelineShowsListed(b: Bundle, c: Context<State>, notice: string)
    requires Fits(TimelineTitle(b, c.lang, notice) + Lines(QuitItem(b, c.lang)))
    ensures var t := ShowTimeline(b, c, notice);
            var title, items, footer := TimelineTitle(b, c.lang, notice), TimelineItems(c.state.posts), QuitItem(b, c.lang);
            var k := t.state.value.app.listed;
            && k <= |c.state.posts|
            && t.response.body == title + Lines(items[..k] + footer)
            && Split(Lines(items[..k] + footer), '\n') == [""] + Rows(items[..k] + footer)
            && (forall j | 0 <= j <= |items| :: Fits(FitText(title, items, footer, j)) <==> j <= k)
  {
    hide Fits, Lines, Shown, Rows, Split, TimelineItems, Shrunk, Translate, FitText;
    var title, items, footer := TimelineTitle(b, c.lang, notice), TimelineItems(c.state.posts), QuitItem(b, c.lang);
    var k := Shown(title, items, footer, |items|);
    forall j | 0 <= j <= |items| ensures Fits(FitText(title, items, footer, j)) <==> j <= k {
      MenuFitIsOptimal(title, items, footer, j);
    }
    MenuFitLines(title, items, footer, k);
    var body := FitText(title, items, footer, k);
    assert body == title + Lines(items[..k] + footer);
    assert notice != "" ==> title[..|notice|] == notice;
    assert WithNotice(notice, body) == body;
    ShrinkFits(body);
  }
}
