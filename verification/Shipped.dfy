/** The reader with the translations it ships with. */
module Shipped {
  import opened Text
  import opened Encoding
  import opened Truncation
  import opened Gsm
  import opened Pagination
  import opened PaginationLaws
  import opened Menus
  import opened Canonical
  import opened Sdk
  import opened Reader
  import opened ReaderLaws
  import opened ReaderDialogue
  import opened FetchedPosts
  import opened Routing
  import opened Sessions
  import opened Gateway
  import opened EndToEnd

  const ENGLISH: map<string, string> := map[
    "menu.title" := "OpenUSSD Fediverse",
    "menu.timeline" := "Public timeline",
    "menu.about" := "About",
    "menu.quit" := "Quit",
    "timeline.title" := "Latest posts",
    "nav.next" := "1. Next",
    "nav.prev" := "2. Prev",
    "nav.back" := "0. Back",
    "error.fetch" := "Could not reach the instance. Try again.",
    "error.empty" := "Nothing to show here.",
    "error.choice" := "Invalid choice.",
    "session.ended" := "Goodbye.",
    "about.body" := "OpenUSSD: an open gateway and SDK bringing the federated web to feature phones. github.com/davidrukahu/openussd"
  ]

  const SWAHILI: map<string, string> := map[
    "menu.title" := "OpenUSSD Fediverse",
    "menu.timeline" := "Ratiba ya umma",
    "menu.about" := "Kuhusu",
    "menu.quit" := "Ondoka",
    "error.choice" := "Chaguo si sahihi.",
    "session.ended" := "Kwaheri."
  ]

  const FRENCH: map<string, string> := map[
    "menu.title" := "OpenUSSD Fediverse",
    "menu.timeline" := "Fil public",
    "menu.about" := "\U{C0} propos",
    "menu.quit" := "Quitter",
    "error.choice" := "Choix invalide.",
    "session.ended" := "Au revoir."
  ]

  const SHIPPED: Bundle := Bundle("en", map["en" := ENGLISH, "sw" := SWAHILI, "fr" := FRENCH])

  /** A phrase that only the English table has is English in every language. */
  lemma EnglishOnly(lang: string, key: string)
    requires key in ENGLISH && key !in SWAHILI && key !in FRENCH
    ensures Translate(SHIPPED, lang, key) == ENGLISH[key]
  {
    hide ENGLISH, SWAHILI, FRENCH;
  }

  lemma NavIsUntranslated()
    ensures "nav.next" !in SWAHILI && "nav.prev" !in SWAHILI && "nav.back" !in SWAHILI
    ensures "nav.next" !in FRENCH && "nav.prev" !in FRENCH && "nav.back" !in FRENCH
  {
  }

  lemma EnglishNav()
    ensures "nav.next" in ENGLISH && ENGLISH["nav.next"] == "1. Next"
    ensures "nav.prev" in ENGLISH && ENGLISH["nav.prev"] == "2. Prev"
    ensures "nav.back" in ENGLISH && ENGLISH["nav.back"] == "0. Back"
  {
  }

  /** The navigation is English in every language: no other table translates it. */
  lemma NavIsEnglish(lang: string)
    ensures NavOf(SHIPPED, lang) == Nav("1. Next", "2. Prev", "0. Back")
  {
    hide Translate, ENGLISH, SWAHILI, FRENCH, SHIPPED;
    EnglishNav();
    NavIsUntranslated();
    EnglishOnly(lang, "nav.next");
    EnglishOnly(lang, "nav.prev");
    EnglishOnly(lang, "nav.back");
  }

  lemma PlainNavPhrases()
    ensures AllBasic("1. Next") && AllBasic("2. Prev") && AllBasic("0. Back")
  {
  }

  lemma PlainPhrases()
    ensures AllBasic("Latest posts") && AllBasic("Invalid choice.")
    ensures AllBasic("Chaguo si sahihi.") && AllBasic("Choix invalide.")
  {
  }

  lemma PlainQuitPhrases()
    ensures AllBasic("Quit") && AllBasic("Ondoka") && AllBasic("Quitter") && AllBasic("0") && AllBasic(". ") && AllBasic("\n")
  {
  }

  /** With the shipped navigation the reserve is at most 61 units. */
  lemma ShippedReserve(p: Post, lang: string)
    ensures PlainNav(NavOf(SHIPPED, lang))
    ensures 33 <= ReserveFor(p, NavOf(SHIPPED, lang)) <= 61
  {
    hide IsBasic, LabelOf, NavText;
    NavIsEnglish(lang);
    PlainNavPhrases();
    ReserveIs(p, NavOf(SHIPPED, lang));
    HeaderShape(p, 1, 1);
  }

  /** So no post loses a visible rune, in any language, and reading it takes at
      most one page more than it has runes. */
  lemma ShippedReaderPagesWhole(p: Post, lang: string)
    ensures PagedWhole(p, NavOf(SHIPPED, lang))
    ensures |PagesOf(p, NavOf(SHIPPED, lang))| <= 1 + |p.text|
  {
    hide PagedWhole, ReserveFor, Pages;
    ShippedReserve(p, lang);
    PostIsPagedWhole(p, NavOf(SHIPPED, lang));
    PageCountBound(UCS2, p.text, ReserveFor(p, NavOf(SHIPPED, lang)));
    DivideByMore(|p.text|, LeastCut(UCS2, ReserveFor(p, NavOf(SHIPPED, lang))));
  }

  lemma DivideByMore(n: nat, k: int)
    requires k >= 1
    ensures n / k <= n
  {
    DivideBound(n / k, 1, n);
  }

  /** The screens of a post with at most 99 pages are shown whole, navigation
      included, when its author label has no extension character or the page is
      not in the GSM alphabet. */
  lemma ShippedPostScreensFit(p: Post, lang: string, page: nat)
    requires var pages := PagesOf(p, NavOf(SHIPPED, lang));
             && page < |pages| <= 99
             && (Extensions(LabelOf(p.author, MAX_HEADER_LEN, "Post")) == 0 || !AllGsm(pages[page]))
    ensures Shrunk(PageScreen(p, NavOf(SHIPPED, lang), page)) == PageScreen(p, NavOf(SHIPPED, lang), page)
  {
    hide LabelOf, PagesOf, AllGsm, PageScreen, NavOf, PlainNav, ReserveFor, Decimal;
    ShippedReserve(p, lang);
    CounterFitsReserve(page, |PagesOf(p, NavOf(SHIPPED, lang))|);
    PostScreensFit(p, NavOf(SHIPPED, lang), page);
  }

  // ---------- the other phrases ----------

  /** A phrase that every table has. */
  lemma InEveryTable(lang: string, key: string)
    requires key in ENGLISH && key in SWAHILI && key in FRENCH
    ensures Translate(SHIPPED, lang, key) in {ENGLISH[key], SWAHILI[key], FRENCH[key]}
  {
    hide ENGLISH, SWAHILI, FRENCH;
  }

  lemma RefusalPhrase(lang: string)
    ensures Translate(SHIPPED, lang, "error.choice") in {"Invalid choice.", "Chaguo si sahihi.", "Choix invalide."}
  {
    hide Translate;
    InEveryTable(lang, "error.choice");
  }

  lemma QuitPhrase(lang: string)
    ensures Translate(SHIPPED, lang, "menu.quit") in {"Quit", "Ondoka", "Quitter"}
  {
    hide Translate;
    InEveryTable(lang, "menu.quit");
  }

  lemma TitlePhrase(lang: string)
    ensures Translate(SHIPPED, lang, "timeline.title") == "Latest posts"
  {
    hide Translate;
    EnglishOnly(lang, "timeline.title");
  }

  lemma FarewellPhrase(lang: string)
    ensures Translate(SHIPPED, lang, "session.ended") in {"Goodbye.", "Kwaheri.", "Au revoir."}
  {
    hide Translate;
    InEveryTable(lang, "session.ended");
  }

  /** The farewell always fits, so no turn of the reader is over budget. */
  lemma ShippedFarewellFits(fetch: Option<seq<Post>>, lang: string)
    ensures Fits(EndedText(ReaderApp(SHIPPED, fetch), lang))
  {
    hide Translate, ReaderApp, IsBasic;
    FarewellPhrase(lang);
    var text := Translate(SHIPPED, lang, "session.ended");
    assert ReaderApp(SHIPPED, fetch).bundle == SHIPPED by { ReaderBundle(fetch); }
    assert |text| <= 10;
    ShortTextFits(text, 0);
  }

  lemma ReaderBundle(fetch: Option<seq<Post>>)
    ensures ReaderApp(SHIPPED, fetch).bundle == SHIPPED
  {
  }

  /** The timeline's title, with or without a refusal above it, always leaves room
      for its way out. */
  lemma ShippedTimelineHasRoom(lang: string, notice: string)
    requires notice == "" || notice == Translate(SHIPPED, lang, "error.choice")
    ensures Fits(TimelineTitle(SHIPPED, lang, notice) + Lines(QuitItem(SHIPPED, lang)))
  {
    hide Translate, IsBasic, OneLine, Tally;
    RefusalPhrase(lang);
    TitlePhrase(lang);
    PlainPhrases();
    PlainQuitPhrases();
    var title := TimelineTitle(SHIPPED, lang, notice);
    assert AllGsm(title) && |title| <= 30;
    var footer := Lines(QuitItem(SHIPPED, lang));
    QuitIsShort(lang);
    AllGsmAppend(title, footer);
    TallyBounds(GSM7, title + footer);
  }

  lemma QuitIsShort(lang: string)
    ensures AllGsm(Lines(QuitItem(SHIPPED, lang))) && |Lines(QuitItem(SHIPPED, lang))| <= 11
  {
    hide Translate, IsBasic, Collapse;
    QuitPhrase(lang);
    PlainQuitPhrases();
    var item := QuitItem(SHIPPED, lang)[0];
    CollapseIsClean(Breaks, item.key);
    CollapseIsClean(Breaks, item.text);
    OneLineIsOneLine(item.key);
    OneLineIsOneLine(item.text);
    assert QuitItem(SHIPPED, lang)[..0] == [];
    assert Lines(QuitItem(SHIPPED, lang)) == "" + Line(item);
  }

  /** The shipped reader's timeline, also after a refused choice, lists as many
      posts as fit, one line each, and then the way out. */
  lemma ShippedTimeline(c: Context<State>, notice: string)
    requires notice == "" || notice == Translate(SHIPPED, c.lang, "error.choice")
    ensures var t := ShowTimeline(SHIPPED, c, notice);
            var items, footer := TimelineItems(c.state.posts), QuitItem(SHIPPED, c.lang);
            var k := t.state.value.app.listed;
            && k <= |c.state.posts|
            && t.response.body == TimelineTitle(SHIPPED, c.lang, notice) + Lines(items[..k] + footer)
            && Split(Lines(items[..k] + footer), '\n') == [""] + Rows(items[..k] + footer)
  {
    hide Translate, Lines, Fits, TimelineItems, Rows, Split, ShowTimeline, QuitItem, TimelineTitle;
    ShippedTimelineHasRoom(c.lang, notice);
    TimelineShowsListed(SHIPPED, c, notice);
  }

  // ---------- dialogues with the shipped reader ----------

  lemma ShippedNavIsClear(lang: string)
    ensures ClearNav(NavOf(SHIPPED, lang))
  {
    hide NavOf, AllBasic;
    NavIsEnglish(lang);
    PlainNavPhrases();
  }

  lemma ShippedHasRoom(lang: string)
    ensures HasRoom(SHIPPED, lang, TimelineTitle(SHIPPED, lang, ""))
    ensures HasRoom(SHIPPED, lang, TimelineTitle(SHIPPED, lang, Translate(SHIPPED, lang, "error.choice")))
  {
    hide Translate, Fits, Lines, TimelineTitle, QuitItem;
    ShippedTimelineHasRoom(lang, "");
    ShippedTimelineHasRoom(lang, Translate(SHIPPED, lang, "error.choice"));
  }

  /** On the shipped timeline an item opens exactly when the screen lists it, in
      every language and also under a refusal. */
  lemma ShippedItems(
      fetch: Option<seq<Post>>, later: Option<seq<Post>>, st: Stored<State>, ev: Event, turn: nat,
      body: string, at: Stored<State>, next: Event)
    returns (title: string)
    requires Reachable(SHIPPED, st) && at.screen == "timeline" && Types(next) && LastInput(next) != "0"
    requires Step(ReaderApp(SHIPPED, fetch), st, ev, turn) == Ok(Turned(Response(body, false), Some(at)))
    ensures OffersItem(body, title, "0")
    ensures var r, c := Step(ReaderApp(SHIPPED, later), at, next, turn + 1), ContextOf(at, next, turn + 1);
            match NamedItem(body, title, LastInput(next))
            case Some(n) => r == Ok(ShowPost(SHIPPED, c.(state := at.app.(cursor := n - 1, page := 0)), ""))
            case None => r == Ok(ShowTimeline(SHIPPED, c, Translate(SHIPPED, at.lang, "error.choice")))
  {
    hide SHIPPED, ENGLISH, SWAHILI, FRENCH, Reachable, Step, ReaderApp, OffersItem, NamedItem, HasRoom, Translate,
      TimelineTitle, ShowPost, ShowTimeline;
    title := OnlyListedItemsOpen(SHIPPED, fetch, later, st, ev, turn, body, at, next);
    ShippedHasRoom(at.lang);
  }

  /** Few enough pages for the counter: 99, or any post in the GSM alphabet that the
      client can fetch. */
  predicate FewPages(p: Post, nav: Nav) {
    |PagesOf(p, nav)| <= 99 || (AllGsm(p.text) && Utf8Len(p.text) <= MAX_POST_BYTES)
  }

  lemma ShippedFewPages(p: Post, lang: string)
    requires FewPages(p, NavOf(SHIPPED, lang))
    ensures |PagesOf(p, NavOf(SHIPPED, lang))| <= 99
  {
    hide SHIPPED, ENGLISH, SWAHILI, FRENCH, NavOf, PagesOf, AllGsm, Utf8Len, ReserveFor;
    ShippedReserve(p, lang);
    if AllGsm(p.text) && Utf8Len(p.text) <= MAX_POST_BYTES {
      FetchedGsmPages(p, NavOf(SHIPPED, lang));
    }
  }

  /** With the shipped strings a post of few enough pages, its author's label free
      of extension characters or its pages outside the GSM alphabet, is read whole
      by opening it and pressing "1": every page is shown uncut, from the first,
      and the pages are the post. */
  lemma ShippedReading(
      st: Stored<State>, open: Press, presses: seq<Press>, extra: Press, turn: nat, n: nat)
    requires Reachable(SHIPPED, st) && st.screen == "timeline" && Types(open.ev)
    requires Choice(LastInput(open.ev), st.app.listed) == Some(n) && n <= |st.app.posts|
    requires var post, nav := st.app.posts[n - 1], NavOf(SHIPPED, st.lang);
             && |presses| + 1 == |PagesOf(post, nav)| && FewPages(post, nav)
             && forall i | 0 <= i < |PagesOf(post, nav)| ::
                  Extensions(LabelOf(post.author, MAX_HEADER_LEN, "Post")) == 0 || !AllGsm(PagesOf(post, nav)[i])
    requires (forall p | p in presses :: Presses(p, "1")) && Presses(extra, "1")
    ensures var post := st.app.posts[n - 1];
            var read := Played(SHIPPED, st, [open] + presses, turn);
            && |read.1| == |PagesOf(post, NavOf(SHIPPED, st.lang))|
            && (forall i | 0 <= i < |read.1| :: read.1[i] == PageScreen(post, NavOf(SHIPPED, st.lang), i))
            && Solid(Concat(Inners(read.1))) == Solid(post.text) && Partitions(Inners(read.1), post.text)
            && Refused(SHIPPED, Step(ReaderApp(SHIPPED, extra.fetch), read.0, extra.ev, turn + |presses| + 1), read.0)
  {
    hide LabelOf, PagesOf, AllGsm, NavOf, ReserveFor, Translate, Played, Inners, Solid, Partitions, Refused, Presses,
      Choice, Reachable, Step, ReaderApp, ClearNav, PageScreen, FewPages;
    var post := st.app.posts[n - 1];
    ShippedReserve(post, st.lang);
    ShippedFewPages(post, st.lang);
    ShippedNavIsClear(st.lang);
    ReadingShowsTheWholePost(SHIPPED, st, open, presses, extra, turn, n);
  }

  /** With the shipped strings, the reserve is enough for every post that can be
      fetched from an author exactly when the label has no extension character. */
  lemma ShippedReserveIsEnoughIff(author: string, lang: string)
    requires author != "" && TrimSpace(author) == author
    ensures FetchedPostsFit(author, NavOf(SHIPPED, lang)) <==>
            Extensions(LabelOf(author, MAX_HEADER_LEN, "Post")) == 0
  {
    hide SHIPPED, ENGLISH, SWAHILI, FRENCH, LabelOf, Extensions, TrimSpace, PlainNav, FetchedPostsFit, ReserveFor, NavOf;
    ShippedReserve(Post(author, "", ""), lang);
    FetchedReserveIsEnoughIff(author, NavOf(SHIPPED, lang));
  }

  /** Each control is labelled with the key that works it. */
  lemma ShippedKeysAreLabels(lang: string, c: Control)
    ensures var text := TextOf(NavOf(SHIPPED, lang), c);
            |text| > 3 && ControlFor(text[..1]) == Some(c) && text[1..3] == ". "
  {
    hide SHIPPED, ENGLISH, SWAHILI, FRENCH, NavOf;
    NavIsEnglish(lang);
    assert "1. Next"[..1] == "1" && "2. Prev"[..1] == "2" && "0. Back"[..1] == "0";
    assert "1. Next"[1..3] == ". " && "2. Prev"[1..3] == ". " && "0. Back"[1..3] == ". ";
  }

  /** A post of white space alone has no pages, and its screen says so. */
  lemma ShippedEmptyPost(at: Stored<State>)
    requires at.app.cursor < |at.app.posts| && AllSpace(at.app.posts[at.app.cursor].text)
    ensures PageCount(SHIPPED, at) == 0 && Full(SHIPPED, at, "") == "Nothing to show here."
  {
    hide SHIPPED, ENGLISH, SWAHILI, FRENCH, NavOf, Translate, TrimSpace, ReserveFor, PagesFrom;
    var text, reserve := at.app.posts[at.app.cursor].text, ReserveFor(at.app.posts[at.app.cursor], NavOf(SHIPPED, at.lang));
    TrimmedEnds(text);
    NoPage("", 0, reserve);
    EmptyPhrase(at.lang);
  }

  lemma EmptyPhrase(lang: string)
    ensures Translate(SHIPPED, lang, "error.empty") == "Nothing to show here."
  {
    hide Translate, SHIPPED;
    EnglishOnly(lang, "error.empty");
  }

  // ---------- a dialogue that loses its controls ----------

  /** A post that can be fetched, of three full pages. */
  function FullPost(): Post {
    Post("Ann", Slab(146, 3), "5m")
  }

  lemma AnnsLabel()
    ensures LabelOf("Ann", MAX_HEADER_LEN, "Post") == "Ann" && LabelOf("Ann", MAX_HEADER_LEN, "Post 1") == "Ann"
    ensures Extensions("Ann") == 0
  {
    hide IsExtension, Collapse;
    PlainHasNoExtension("Ann");
    WordIsOneLine("Ann");
  }

  lemma FullPostPages()
    ensures var p, nav := FullPost(), NavOf(SHIPPED, "en");
            && Fetchable(p) && ReserveFor(p, nav) == 36
            && |PagesOf(p, nav)| == 3 && forall i | 0 <= i < 3 :: PagesOf(p, nav)[i] == Repeat('x', 146)
  {
    hide PagesOf, NavOf, Slab, ReserveFor, LabelOf, Utf8Len, IsBasic, PlainNav;
    var p, nav := FullPost(), NavOf(SHIPPED, "en");
    NavIsEnglish("en");
    PlainNavPhrases();
    assert PlainNav(nav) by { EnglishIsPlain(nav); }
    AnnsLabel();
    ReserveIs(p, nav);
    FilledPages(p, nav, 146, 3);
    FullPostIsFetchable();
  }

  lemma EnglishIsPlain(nav: Nav)
    requires AllBasic(nav.next) && AllBasic(nav.prev) && AllBasic(nav.back)
    ensures PlainNav(nav)
  {
  }

  lemma FullPostIsFetchable()
    ensures Fetchable(FullPost())
  {
    hide IsSpace, Utf8Len, TrimSpace;
    Utf8AtLeast(FullPost().text);
    RunIsTrim(438);
    NameIsTrimmed();
  }

  lemma NameIsTrimmed()
    ensures TrimSpace("Ann") == "Ann"
  {
  }

  /** It is listed as the only item. */
  lemma FullPostIsListed(c: Context<State>)
    requires c.lang == "en" && c.state.posts == [FullPost()]
    ensures ShowTimeline(SHIPPED, c, "").state == Some(Stored("timeline", "en", c.state.(listed := 1)))
  {
    hide Translate, Lines, Fits, TimelineItems, Rows, Split, FitText, FullPost, OneLine, LabelOf, Shown;
    var title, items, footer := TimelineTitle(SHIPPED, "en", ""), TimelineItems(c.state.posts), QuitItem(SHIPPED, "en");
    ShippedTimelineHasRoom("en", "");
    TimelineShowsListed(SHIPPED, c, "");
    OneItemIsShort();
    ShortFits(FitText(title, items, footer, 1));
  }

  lemma OneItemIsShort()
    ensures |FitText(TimelineTitle(SHIPPED, "en", ""), TimelineItems([FullPost()]), QuitItem(SHIPPED, "en"), 1)| <= 35
  {
    hide Translate, IsBasic, Collapse, TimelineItem;
    TitlePhrase("en");
    QuitIsShort("en");
    var posts := [FullPost()];
    ItemKeys(posts, 0);
    var items := TimelineItems(posts);
    var item := items[0];
    FirstItem();
    assert items[..1] == [item] && [item][..0] == [];
    CollapseIsClean(Breaks, item.key);
    CollapseIsClean(Breaks, item.text);
    assert Lines(items[..1]) == "" + Line(item);
  }

  lemma FirstItem()
    ensures TimelineItem(FullPost(), 0) == MenuItem("1", "Ann (5m)")
  {
    hide LabelOf;
    AnnsLabel();
    assert Decimal(1) == "1";
    assert "Post " + "1" == "Post 1";
    assert "Ann" + (" (" + "5m" + ")") == "Ann (5m)";
  }

  lemma ShortFits(s: string)
    requires |s| <= 35
    ensures Fits(s)
  {
    ShortTextFits(s, 0);
  }

  /** A dialogue not yet begun resumes here. */
  function Start(): Stored<State> {
    Resume(ReaderApp(SHIPPED, None), Blank(ReaderApp(SHIPPED, None)))
  }

  lemma StartIsMenu()
    ensures Start() == Stored("menu", "en", State([], 0, 0, 0))
  {
  }

  lemma PressedTypes(p: Press)
    requires Presses(p, "1")
    ensures Types(p.ev) && LastInput(p.ev) == "1"
  {
  }

  lemma ListedIsReachable(at: Stored<State>)
    requires at.screen == "timeline" && at.lang != "" && at.app.listed <= |at.app.posts|
    ensures Reachable(SHIPPED, at)
  {
  }

  lemma FullPostFetched(first: Press)
    requires first.fetch == Some([FullPost()]) && Presses(first, "1")
    ensures var r := Step(ReaderApp(SHIPPED, first.fetch), Start(), first.ev, 1);
            r.Ok? && r.value.state == Some(Stored("timeline", "en", State([FullPost()], 0, 0, 1)))
  {
    hide SHIPPED, ENGLISH, SWAHILI, FRENCH, Step, ReaderApp, FullPost, Presses, Start, ShowTimeline;
    PressedTypes(first);
    StartIsMenu();
    MenuFetches(SHIPPED, [FullPost()], Start(), first.ev, 1);
    FullPostIsListed(ContextOf(Start(), first.ev, 1).(state := Start().app.(posts := [FullPost()])));
  }

  lemma SecondPage(open: Press, rest: seq<Press>)
    requires |rest| == 1 && Presses(open, "1") && forall p | p in rest :: Presses(p, "1")
    ensures Played(SHIPPED, Stored("timeline", "en", State([FullPost()], 0, 0, 1)), [open] + rest, 2).0 == FullPage()
  {
    hide SHIPPED, ENGLISH, SWAHILI, FRENCH, Step, ReaderApp, Played, PagesOf, FullPost, NavOf, PageScreen,
      Shrunk, Presses, Reachable, Choice, Fetchable, ReserveFor;
    var at := Stored("timeline", "en", State([FullPost()], 0, 0, 1));
    PressedTypes(open);
    ListedIsReachable(at);
    OneIsChosen();
    FullPostHasThree();
    PressingNextTurnsPages(SHIPPED, at, open, rest, 2, 1);
  }

  lemma FullPostHasThree()
    ensures |PagesOf(FullPost(), NavOf(SHIPPED, "en"))| == 3
  {
    hide PagesOf, NavOf, FullPost, SHIPPED, ENGLISH, SWAHILI, FRENCH;
    FullPostPages();
  }

  /** Dialling in and pressing "1" three times, the instance answering the first
      with that post, leads to its second page. */
  lemma DialledToFullPage(presses: seq<Press>)
    requires |presses| == 3 && presses[0].fetch == Some([FullPost()]) && forall p | p in presses :: Presses(p, "1")
    ensures Played(SHIPPED, Start(), presses, 1).0 == FullPage()
  {
    hide SHIPPED, ENGLISH, SWAHILI, FRENCH, Step, ReaderApp, Played, FullPost, FullPage, Presses, Start;
    var first, open, rest := presses[0], presses[1], presses[2..];
    assert presses == [first] + ([open] + rest);
    FullPostFetched(first);
    PlayedOn(SHIPPED, Start(), first, [open] + rest, 1);
    SecondPage(open, rest);
  }

  /** On its second page. */
  function FullPage(): Stored<State> {
    Stored("post", "en", State([FullPost()], 0, 1, 1))
  }

  lemma OneIsChosen()
    ensures Choice("1", 1) == Some(1)
  {
    hide Choice;
    KeySelectsItem(1, 1);
  }

  lemma SecondHeader()
    ensures PostHeader(FullPost(), 2, 3) == "Ann (2/3)"
  {
    hide LabelOf;
    AnnsLabel();
    assert Decimal(2) == "2" && Decimal(3) == "3";
    assert "Ann" + (" (" + "2" + "/" + "3" + ")") == "Ann (2/3)";
  }

  const REFUSAL: string := "Invalid choice."

  /** What the second page shows above its controls after a wrong input. */
  lemma AboveIsPlain()
    ensures var p, nav := FullPost(), NavOf(SHIPPED, "en");
            && |PagesOf(p, nav)| == 3
            && Above(p, nav, 1, REFUSAL) == REFUSAL + "\n" + "Ann (2/3)" + "\n" + Repeat('x', 146)
  {
    hide SHIPPED, ENGLISH, SWAHILI, FRENCH, PagesOf, NavOf, FullPost, NavText, PostHeader;
    FullPostPages();
    SecondHeader();
    assert PageScreen(FullPost(), NavOf(SHIPPED, "en"), 1)[0] == 'A';
  }

  lemma ReadRunes(body: string, text: string, i: int, c: char)
    requires OccursAt(body, text, i) && c in text
    ensures c in body
  {
    var j :| 0 <= j < |text| && text[j] == c;
    assert body[i + j] == body[i..i + |text|][j];
  }

  /** A text with a rune of its own is not read there. */
  lemma NotReadWithout(above: string, text: string, c: char)
    requires c in text && c !in above
    ensures !Reads(above, text)
  {
    hide OccursAt;
    if i :| OccursAt(above, text, i) {
      ReadRunes(above, text, i, c);
    }
  }

  lemma CapitalsAreBelow(above: string)
    requires above == REFUSAL + "\n" + "Ann (2/3)" + "\n" + Repeat('x', 146)
    ensures 'N' !in above && 'P' !in above && 'B' !in above
  {
  }

  lemma CapitalsOfControls()
    ensures 'N' in "1. Next" && 'P' in "2. Prev" && 'B' in "0. Back" && 'P' !in "1. Next" && 'B' !in "1. Next"
  {
    assert "1. Next"[3] == 'N' && "2. Prev"[3] == 'P' && "0. Back"[3] == 'B';
  }

  lemma ControlsOnlyOnLine()
    ensures var p, nav := FullPost(), NavOf(SHIPPED, "en");
            |PagesOf(p, nav)| == 3 && OnlyOnLine(nav, Above(p, nav, 1, REFUSAL))
  {
    hide SHIPPED, ENGLISH, SWAHILI, FRENCH, PagesOf, NavOf, FullPost, Above, Reads;
    AboveIsPlain();
    NavIsEnglish("en");
    var above := Above(FullPost(), NavOf(SHIPPED, "en"), 1, REFUSAL);
    CapitalsAreBelow(above);
    CapitalsOfControls();
    NotReadWithout(above, "1. Next", 'N');
    NotReadWithout(above, "2. Prev", 'P');
    NotReadWithout(above, "0. Back", 'B');
    NotReadWithout("1. Next", "2. Prev", 'P');
    NotReadWithout("1. Next", "0. Back", 'B');
  }

  lemma TooLong(s: string)
    requires |s| > MAX_SEPTETS
    ensures !Fits(s)
  {
    TallyBounds(AlphabetOf(s), s);
  }

  lemma NoRoomForNext()
    ensures var full, behind := Full(SHIPPED, FullPage(), REFUSAL), Behind(NavOf(SHIPPED, "en"), 1, Next);
            !RoomFor(full, behind)
  {
    hide SHIPPED, ENGLISH, SWAHILI, FRENCH, PagesOf, NavOf, FullPost, Above, Fits, Full, Uncut, NavText, Controls;
    var p, nav := FullPost(), NavOf(SHIPPED, "en");
    FullPostPages();
    AboveIsPlain();
    NavIsEnglish("en");
    PlainNavPhrases();
    EnglishIsPlain(nav);
    FullIsUncut(SHIPPED, FullPage(), REFUSAL);
    UncutParts(p, nav, 1, REFUSAL);
    ControlOnLine(nav, 1, 3, Next);
    var full, behind := Full(SHIPPED, FullPage(), REFUSAL), Behind(nav, 1, Next);
    assert |behind| == 16 && |full| == 196;
    TooLong(full);
    TooLong(full[..|full| - |behind| + 3] + ELLIPSIS);
  }

  lemma EnglishRefusal()
    ensures Translate(SHIPPED, "en", "error.choice") == REFUSAL
  {
    hide SWAHILI, FRENCH;
  }

  lemma FullPageHidesControls(
      fetch: Option<seq<Post>>, later: Option<seq<Post>>, wrong: Event, next: Event, turn: nat)
    requires Types(wrong) && ControlFor(LastInput(wrong)) == None && Types(next) && LastInput(next) == "1"
    ensures var at := FullPage();
            var r := Step(ReaderApp(SHIPPED, fetch), at, wrong, turn);
            && r.Ok? && r.value.state == Some(at)
            && (forall c: Control :: !Reads(r.value.response.body, TextOf(Nav("1. Next", "2. Prev", "0. Back"), c)))
            && Takes(SHIPPED, Step(ReaderApp(SHIPPED, later), at, next, turn + 1), at, Next, next, turn + 1)
  {
    hide SHIPPED, ENGLISH, SWAHILI, FRENCH, PagesOf, Step, ReaderApp, NavOf, FullPost, Reachable,
      Reads, Full, OnlyOnLine, Above, Behind, RoomFor, ClearNav, Redraws, Translate;
    FullPostPages();
    ShippedNavIsClear("en");
    NavIsEnglish("en");
    EnglishRefusal();
    ControlsOnlyOnLine();
    NoRoomForNext();
    ReadIsReachable(FullPage());
    RefusalHidesControls(SHIPPED, fetch, later, FullPage(), wrong, next, turn);
  }

  /** There a wrong input takes every control off the screen, so that none can be
      read, and "1" still turns the page. */
  lemma ShippedRefusalHidesControls(
      presses: seq<Press>, fetch: Option<seq<Post>>, later: Option<seq<Post>>, wrong: Event, next: Event, turn: nat)
    requires |presses| == 3 && presses[0].fetch == Some([FullPost()]) && forall p | p in presses :: Presses(p, "1")
    requires Types(wrong) && ControlFor(LastInput(wrong)) == None && Types(next) && LastInput(next) == "1"
    ensures Fetchable(FullPost())
    ensures var at := Played(SHIPPED, Start(), presses, 1).0;
            var r := Step(ReaderApp(SHIPPED, fetch), at, wrong, turn);
            && at.screen == "post" && r.Ok? && r.value.state == Some(at)
            && !Reads(r.value.response.body, "1. Next") && !Reads(r.value.response.body, "2. Prev")
            && !Reads(r.value.response.body, "0. Back")
            && Takes(SHIPPED, Step(ReaderApp(SHIPPED, later), at, next, turn + 1), at, Next, next, turn + 1)
  {
    hide SHIPPED, ENGLISH, SWAHILI, FRENCH, Step, ReaderApp, Played, Start, FullPost, Presses, Reads, Takes, Fetchable;
    DialledToFullPage(presses);
    FullPostIsFetchable();
    FullPageHidesControls(fetch, later, wrong, next, turn);
    var body := Step(ReaderApp(SHIPPED, fetch), FullPage(), wrong, turn).value.response.body;
    var nav := Nav("1. Next", "2. Prev", "0. Back");
    assert !Reads(body, TextOf(nav, Next)) && !Reads(body, TextOf(nav, Prev)) && !Reads(body, TextOf(nav, Back));
  }

  lemma ReadIsReachable(at: Stored<State>)
    requires at.screen == "post" && at.lang != "" && at.app.listed <= |at.app.posts| && at.app.cursor < |at.app.posts|
    requires at.app.page < |PagesOf(at.app.posts[at.app.cursor], NavOf(SHIPPED, at.lang))|
    ensures Reachable(SHIPPED, at)
  {
    hide PagesOf, NavOf;
  }

  // ---------- the reader behind the gateway ----------

  /** Every tenant is the shipped reader, its instance answering as it likes at
      each moment. */
  ghost predicate RunsReader(run: seq<Moment<State>>) {
    forall i, name | 0 <= i < |run| :: exists fetch :: run[i].apps(name) == ReaderApp(SHIPPED, fetch)
  }

  /** Not yet begun, or a state the reader can be in. */
  ghost predicate Sound(name: string, st: Stored<State>) {
    st == Stored("", "", State([], 0, 0, 0)) || Reachable(SHIPPED, st)
  }

  lemma ReaderBlankIsSound(fetch: Option<seq<Post>>, name: string)
    ensures Sound(name, Blank(ReaderApp(SHIPPED, fetch)))
  {
    hide Reachable;
  }

  lemma ReaderStepIsSound(fetch: Option<seq<Post>>, name: string, st: Stored<State>, ev: Event, turn: nat)
    ensures Sound(name, st) ==> StepKeeps(ReaderApp(SHIPPED, fetch), name, st, ev, turn, Sound)
  {
    hide Step, Translate, PostPages, NavOf;
    var app := ReaderApp(SHIPPED, fetch);
    ReaderStartsReachable(SHIPPED, fetch);
    if Sound(name, st) {
      StepKeepsReachable(SHIPPED, fetch, Resume(app, st), ev, turn);
    }
  }

  lemma ReaderRunIsSound(run: seq<Moment<State>>, i: nat)
    requires RunsReader(run) && i < |run|
    ensures KeptBy(run[i].apps, Sound) && FarewellsFit(run[i].apps)
  {
    hide Reachable, StepKeeps, ReaderApp, Blank, EndedText, Fits;
    forall name ensures Sound(name, Blank(run[i].apps(name))) {
      var fetch :| run[i].apps(name) == ReaderApp(SHIPPED, fetch);
      ReaderBlankIsSound(fetch, name);
    }
    forall name, st: Stored<State>, ev, turn | Sound(name, st)
      ensures StepKeeps(run[i].apps(name), name, st, ev, turn, Sound)
    {
      var fetch :| run[i].apps(name) == ReaderApp(SHIPPED, fetch);
      ReaderStepIsSound(fetch, name, st, ev, turn);
    }
    forall name, lang ensures Fits(EndedText(run[i].apps(name), lang)) {
      var fetch :| run[i].apps(name) == ReaderApp(SHIPPED, fetch);
      ShippedFarewellFits(fetch, lang);
    }
  }

  /** The reader deployed: over every sequence of callbacks through gateway,
      webhook and SDK, whatever the instance answers, subscribers see what an
      in-memory reader would show, no turn fails for being over budget, and every
      stored session is the blob of a sound reader state, its page and its cursor
      in range. */
  lemma ReaderBehindGateway(run: seq<Moment<State>>, router: Router, codecs: Codecs<State>, key: Key)
    requires RunsReader(run) && AllLawful(codecs) && NamedTenants(router)
    ensures GatewayRun(run, router, codecs).1 == DirectRun(run, router).1
    ensures var store := GatewayRun(run, router, codecs).0;
            key in store ==>
              exists st :: Sound(store[key].tenant, st) && store[key].state == Some(codecs(store[key].tenant).encode(st))
  {
    hide AllLawful, NamedTenants, RunsReader, GatewayRun, DirectRun, KeptBy, Sound, FarewellsFit, FarewellsHold;
    forall i | 0 <= i < |run| ensures KeptBy(run[i].apps, Sound) && FarewellsFit(run[i].apps) {
      ReaderRunIsSound(run, i);
    }
    StatelessEqualsStateful(run, router, codecs);
    FittingFarewellsHold(run, router);
    RunsKeep(run, router, key, Sound);
    assert Mirrors(Find(GatewayRun(run, router, codecs).0, key), At(DirectRun(run, router).0, key), codecs, key);
  }
}
