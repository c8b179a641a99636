/** The reader's opening menu under a notice, in the languages it ships with. */
module ShippedMenus {
  import opened Text
  import opened Encoding
  import opened Truncation
  import opened Gsm
  import opened Menus
  import opened Canonical
  import opened Sdk
  import opened Reader
  import opened ReaderLaws
  import opened ReaderDialogue
  import opened Shipped

  // ---------- a menu that fits is shown whole ----------

  /** Menu renders every item whole when all of them fit. */
  lemma {:induction false} MenuWhole(title: string, items: seq<MenuItem>)
    requires Fits(title + Lines(items))
    ensures MenuText(title, items) == title + Lines(items)
    decreases |items|
  {
    hide Fits, Line, BestLine, Lines, MenuText;
    MenuTextStep(title, items);
    if items == [] {
      NoLines();
      assert title + "" == title;
    } else {
      var line, rest := Line(items[0]), Lines(items[1..]);
      assert items == [items[0]] + items[1..];
      LinesCons(items[0], items[1..]);
      assert title + (line + rest) == title + line + rest;
      PrefixWithin(title + line + rest, title + line);
      FitsWithin(title + line, title + line + rest);
      NextLine(title, items[0], true, "");
      MenuWhole(title + line, items[1..]);
    }
  }

  lemma NoLines()
    ensures Lines([]) == ""
  {
  }

  /** A text whose gaps are single inner spaces. */
  predicate SingleSpaced(s: string) {
    s != "" && !IsGap(Breaks, s[0]) && !IsGap(Breaks, s[|s| - 1]) && NoDoubleGap(s)
  }

  predicate NoDoubleGap(s: string) {
    forall i | 0 < i < |s| && IsGap(Breaks, s[i]) :: s[i] == ' ' && !IsGap(Breaks, s[i - 1])
  }

  lemma {:induction false} SpacedIsPending(s: string)
    requires s != "" && !IsGap(Breaks, s[0]) && NoDoubleGap(s)
    ensures Pending(Breaks, s) == s
  {
    hide IsGap;
    var n := |s| - 1;
    assert s == s[..n] + [s[n]];
    CollapseSnoc(Breaks, s[..n], s[n]);
    if n > 0 {
      SpacedIsPending(s[..n]);
      assert s[..n][n - 1] == s[n - 1];
    } else {
      NothingPending();
    }
  }

  lemma NothingPending()
    ensures Pending(Breaks, "") == "" && Collapse(Breaks, "") == ""
  {
  }

  lemma SpacedIsOneLine(s: string)
    requires SingleSpaced(s)
    ensures OneLine(s) == s
  {
    hide IsGap;
    SpacedIsPending(s);
  }

  // ---------- the shipped menu ----------

  datatype Phrases = Phrases(timeline: string, about: string, quit: string, refusal: string)

  const IN_ENGLISH := Phrases("Public timeline", "About", "Quit", "Invalid choice.")
  const IN_SWAHILI := Phrases("Ratiba ya umma", "Kuhusu", "Ondoka", "Chaguo si sahihi.")
  const IN_FRENCH := Phrases("Fil public", "\U{C0} propos", "Quitter", "Choix invalide.")
  const UNREACHED: string := "Could not reach the instance. Try again."
  const TITLE: string := "OpenUSSD Fediverse"

  function PhrasesOf(lang: string): Phrases {
    if lang == "sw" then IN_SWAHILI else if lang == "fr" then IN_FRENCH else IN_ENGLISH
  }

  function MenuOf(p: Phrases): string {
    TITLE + "\n1. " + p.timeline + "\n2. " + p.about + "\n0. " + p.quit
  }

  function ItemsOf(p: Phrases): seq<MenuItem> {
    [MenuItem("1", p.timeline), MenuItem("2", p.about), MenuItem("0", p.quit)]
  }

  predicate AllSpaced(p: Phrases) {
    SingleSpaced(p.timeline) && SingleSpaced(p.about) && SingleSpaced(p.quit)
  }

  lemma MenuLinesOf(p: Phrases)
    requires AllSpaced(p)
    ensures TITLE + Lines(ItemsOf(p)) == MenuOf(p)
  {
    hide OneLine, SingleSpaced;
    SpacedIsOneLine(p.timeline);
    SpacedIsOneLine(p.about);
    SpacedIsOneLine(p.quit);
    KeyIsOneLine(0);
    KeyIsOneLine(1);
    KeyIsOneLine(2);
    assert Decimal(0) == "0" && Decimal(1) == "1" && Decimal(2) == "2";
    var a, b, c := ItemsOf(p)[0], ItemsOf(p)[1], ItemsOf(p)[2];
    ThreeLines(a, b, c);
    assert Line(a) == "\n1. " + p.timeline;
    assert Line(b) == "\n2. " + p.about;
    assert Line(c) == "\n0. " + p.quit;
    assert TITLE + (Line(a) + Line(b) + Line(c)) == MenuOf(p);
  }

  lemma ThreeLines(a: MenuItem, b: MenuItem, c: MenuItem)
    ensures Lines([a, b, c]) == Line(a) + Line(b) + Line(c)
  {
    hide Line;
    assert [a, b, c][..2] == [a, b] && [a, b][..1] == [a] && [a][..0] == [];
    assert Lines([a]) == "" + Line(a);
    assert Lines([a, b]) == Line(a) + Line(b);
  }

  lemma EnglishIsSpaced()
    ensures AllSpaced(IN_ENGLISH)
  {
    hide SingleSpaced;
    PublicTimelineIsSpaced();
    ShortPhrasesAreSpaced();
  }

  lemma SwahiliIsSpaced()
    ensures AllSpaced(IN_SWAHILI)
  {
    hide SingleSpaced;
    RatibaIsSpaced();
    ShortPhrasesAreSpaced();
  }

  lemma PublicTimelineIsSpaced()
    ensures SingleSpaced("Public timeline")
  {
  }

  lemma RatibaIsSpaced()
    ensures SingleSpaced("Ratiba ya umma")
  {
  }

  lemma ShortPhrasesAreSpaced()
    ensures SingleSpaced("About") && SingleSpaced("Quit") && SingleSpaced("Kuhusu") && SingleSpaced("Ondoka")
  {
  }

  lemma FrenchIsSpaced()
    ensures AllSpaced(IN_FRENCH)
  {
    hide SingleSpaced;
    FrenchRowsAreSpaced();
    FrenchAboutIsSpaced();
  }

  lemma FrenchRowsAreSpaced()
    ensures SingleSpaced("Fil public") && SingleSpaced("Quitter")
  {
  }

  lemma FrenchAboutIsSpaced()
    ensures SingleSpaced("\U{C0} propos")
  {
  }

  /** A phrase that every table has, looked up. */
  lemma InTables(lang: string, key: string)
    requires key in ENGLISH && key in SWAHILI && key in FRENCH
    ensures Translate(SHIPPED, lang, key) ==
            if lang == "sw" then SWAHILI[key] else if lang == "fr" then FRENCH[key] else ENGLISH[key]
  {
    hide ENGLISH, SWAHILI, FRENCH;
  }

  lemma MenuTables()
    ensures ENGLISH["menu.title"] == TITLE && SWAHILI["menu.title"] == TITLE && FRENCH["menu.title"] == TITLE
    ensures ENGLISH["menu.timeline"] == IN_ENGLISH.timeline && ENGLISH["menu.about"] == IN_ENGLISH.about
    ensures SWAHILI["menu.timeline"] == IN_SWAHILI.timeline && SWAHILI["menu.about"] == IN_SWAHILI.about
    ensures FRENCH["menu.timeline"] == IN_FRENCH.timeline && FRENCH["menu.about"] == IN_FRENCH.about
  {
  }

  lemma QuitAndRefusalTables()
    ensures ENGLISH["menu.quit"] == IN_ENGLISH.quit && ENGLISH["error.choice"] == IN_ENGLISH.refusal
    ensures SWAHILI["menu.quit"] == IN_SWAHILI.quit && SWAHILI["error.choice"] == IN_SWAHILI.refusal
    ensures FRENCH["menu.quit"] == IN_FRENCH.quit && FRENCH["error.choice"] == IN_FRENCH.refusal
  {
  }

  lemma ShippedMenuPhrases(lang: string)
    ensures var p := PhrasesOf(lang);
            && Translate(SHIPPED, lang, "menu.title") == TITLE
            && Translate(SHIPPED, lang, "menu.timeline") == p.timeline && Translate(SHIPPED, lang, "menu.about") == p.about
  {
    hide Translate, SHIPPED;
    MenuTables();
    InTables(lang, "menu.title");
    InTables(lang, "menu.timeline");
    InTables(lang, "menu.about");
  }

  lemma ShippedMenuNotices(lang: string)
    ensures Translate(SHIPPED, lang, "menu.quit") == PhrasesOf(lang).quit
    ensures Translate(SHIPPED, lang, "error.choice") == PhrasesOf(lang).refusal
    ensures Translate(SHIPPED, lang, "error.fetch") == UNREACHED
  {
    hide Translate, SHIPPED;
    QuitAndRefusalTables();
    InTables(lang, "menu.quit");
    InTables(lang, "error.choice");
    EnglishOnly(lang, "error.fetch");
  }

  lemma PlainFits(s: string)
    requires AllBasic(s) && |s| <= MAX_SEPTETS
    ensures Fits(s)
  {
    hide IsBasic, IsExtension;
    TallyOfBasic(GSM7, s);
  }

  /** Runes of the Basic Multilingual Plane. */
  predicate InPlane(s: string) {
    forall i | 0 <= i < |s| :: s[i] <= '\U{FFFF}'
  }

  lemma {:induction false} UnitsInPlane(s: string)
    requires InPlane(s)
    ensures Tally(UCS2, s) == |s|
  {
    if s != "" {
      UnitsInPlane(s[..|s| - 1]);
    }
  }

  /** Line breaks, ASCII up to "Z", and small letters. */
  predicate Simple(s: string) {
    forall i | 0 <= i < |s| :: s[i] == '\n' || ' ' <= s[i] <= 'Z' || 'a' <= s[i] <= 'z'
  }

  lemma SimpleIsBasic(s: string)
    requires Simple(s)
    ensures AllBasic(s)
  {
  }

  lemma SimpleAppend(s: string, t: string)
    requires Simple(s) && Simple(t)
    ensures Simple(s + t)
  {
  }

  lemma EnglishMenuIsSimple()
    ensures Simple(MenuOf(IN_ENGLISH)) && |MenuOf(IN_ENGLISH)| <= 62
  {
  }

  lemma SwahiliMenuIsSimple()
    ensures Simple(MenuOf(IN_SWAHILI)) && |MenuOf(IN_SWAHILI)| <= 62
  {
  }

  lemma RefusalsAreSimple()
    ensures Simple(IN_ENGLISH.refusal) && Simple(IN_SWAHILI.refusal) && Simple("") && Simple("\n")
  {
  }

  lemma UnreachedIsSimple()
    ensures Simple(UNREACHED)
  {
  }

  lemma FrenchMenuUnits()
    ensures |MenuOf(IN_FRENCH)| == 55 && InPlane(MenuOf(IN_FRENCH)) && MenuOf(IN_FRENCH)[36] == '\U{C0}'
  {
    hide InPlane;
    TitleInPlane();
    FrenchRowsInPlane();
    var a, b, c, d := TITLE, "\n1. " + IN_FRENCH.timeline, "\n2. " + IN_FRENCH.about, "\n0. " + IN_FRENCH.quit;
    InPlaneAppend(a, b);
    InPlaneAppend(a + b, c);
    InPlaneAppend(a + b + c, d);
    assert MenuOf(IN_FRENCH) == a + b + c + d;
    assert (a + b + c + d)[36] == c[4];
  }

  lemma TitleInPlane()
    ensures InPlane(TITLE)
  {
  }

  lemma FrenchRowsInPlane()
    ensures InPlane("\n1. " + IN_FRENCH.timeline) && InPlane("\n2. " + IN_FRENCH.about) && InPlane("\n0. " + IN_FRENCH.quit)
  {
  }

  lemma InPlaneAppend(s: string, t: string)
    requires InPlane(s) && InPlane(t)
    ensures InPlane(s + t)
  {
  }

  lemma AccentIsNotGsm(s: string, i: nat)
    requires i < |s| && s[i] == '\U{C0}'
    ensures !AllGsm(s)
  {
    assert s[i] in s;
    assert !IsGsm(s[i]);
  }

  /** The menu alone fits in every language; under a notice it does in all but
      French, whose accent makes it a UCS-2 screen. */
  lemma MenuFitsIff(lang: string, notice: string)
    requires notice in {"", PhrasesOf(lang).refusal, UNREACHED}
    ensures var full := WithNotice(notice, MenuOf(PhrasesOf(lang)));
            && (notice != "" ==> full == notice + "\n" + MenuOf(PhrasesOf(lang)))
            && (Fits(full) <==> notice == "" || lang != "fr")
  {
    hide Fits, MenuOf, AllBasic, AllGsm, IsBasic, IsExtension;
    var p := PhrasesOf(lang);
    NoticeIsNews(p, notice);
    if lang == "fr" {
      FrenchMenuUnits();
      FrenchMenuFits();
      if notice != "" {
        FrenchOverflows(notice);
      }
    } else {
      OtherMenusFit(lang, notice);
    }
  }

  lemma NoticeIsNews(p: Phrases, notice: string)
    requires notice == "" || notice[0] == 'I' || notice[0] == 'C'
    ensures notice != "" ==> !(notice <= MenuOf(p))
  {
    assert MenuOf(p)[0] == 'O';
  }

  lemma FrenchMenuFits()
    ensures Fits(MenuOf(IN_FRENCH))
  {
    hide MenuOf, IsBasic, IsExtension, InPlane;
    FrenchMenuUnits();
    AccentIsNotGsm(MenuOf(IN_FRENCH), 36);
    UnitsInPlane(MenuOf(IN_FRENCH));
  }

  lemma FrenchOverflows(notice: string)
    requires |notice| >= 15
    ensures !Fits(notice + "\n" + MenuOf(IN_FRENCH))
  {
    hide MenuOf, IsBasic, IsExtension, InPlane;
    FrenchMenuUnits();
    AccentIsNotGsm(MenuOf(IN_FRENCH), 36);
    var s := notice + "\n" + MenuOf(IN_FRENCH);
    AllGsmAppend(notice + "\n", MenuOf(IN_FRENCH));
    TallyBounds(UCS2, s);
  }

  lemma OtherMenusFit(lang: string, notice: string)
    requires lang != "fr" && notice in {"", PhrasesOf(lang).refusal, UNREACHED}
    ensures Fits(MenuOf(PhrasesOf(lang))) && Fits(notice + "\n" + MenuOf(PhrasesOf(lang)))
  {
    hide MenuOf, AllBasic, Fits, Simple;
    EnglishMenuIsSimple();
    SwahiliMenuIsSimple();
    RefusalsAreSimple();
    UnreachedIsSimple();
    var menu := MenuOf(PhrasesOf(lang));
    SimpleAppend(notice, "\n");
    SimpleAppend(notice + "\n", menu);
    SimpleIsBasic(menu);
    SimpleIsBasic(notice + "\n" + menu);
    PlainFits(menu);
    PlainFits(notice + "\n" + menu);
  }

  /** On the shipped menu a wrong choice, or an instance out of reach, shows the
      menu again under the reason; the way out, its last line, is then on the
      screen in every language but French. */
  lemma ShippedMenuUnderNotice(fetch: Option<seq<Post>>, st: Stored<State>, ev: Event, turn: nat)
    requires st.screen == "menu" && Types(ev)
    requires LastInput(ev) !in {"0", "1", "2"} || (LastInput(ev) == "1" && fetch.None?)
    ensures var r := Step(ReaderApp(SHIPPED, fetch), st, ev, turn);
            var notice := if LastInput(ev) == "1" then UNREACHED else PhrasesOf(st.lang).refusal;
            var full := notice + "\n" + MenuOf(PhrasesOf(st.lang));
            && r == Ok(Turned(Response(Shrunk(full), false), Some(Stored("menu", st.lang, st.app))))
            && (ShowsUpTo(Shrunk(full), full, "") <==> st.lang != "fr")
  {
    hide SHIPPED, ENGLISH, SWAHILI, FRENCH, Step, ReaderApp, Fits, Shrunk, MenuOf, PhrasesOf, Translate, MenuText, WithNotice;
    var notice := if LastInput(ev) == "1" then UNREACHED else PhrasesOf(st.lang).refusal;
    var menu := MenuOf(PhrasesOf(st.lang));
    ShippedMenuNotices(st.lang);
    MenuStays(SHIPPED, fetch, st, ev, turn);
    ShippedMenuText(st.lang);
    NoticesAreTexts(st.lang);
    MenuFitsIff(st.lang, notice);
    WholeIffFits(notice + "\n" + menu);
  }

  lemma NoticesAreTexts(lang: string)
    ensures PhrasesOf(lang).refusal != ""
  {
  }

  lemma WholeIffFits(s: string)
    ensures ShowsUpTo(Shrunk(s), s, "") <==> Fits(s)
  {
    hide Fits, Shrunk;
    assert s[..|s| - 0] == s;
    ShrinkFits(s);
    if !Fits(s) {
      CutIsShorter(s);
    }
  }

  lemma ShippedMenuText(lang: string)
    ensures var items := [MenuItem("1", Translate(SHIPPED, lang, "menu.timeline")),
                          MenuItem("2", Translate(SHIPPED, lang, "menu.about")),
                          MenuItem("0", Translate(SHIPPED, lang, "menu.quit"))];
            MenuText(Translate(SHIPPED, lang, "menu.title"), items) == MenuOf(PhrasesOf(lang))
  {
    hide SHIPPED, ENGLISH, SWAHILI, FRENCH, Translate, Fits, MenuText, MenuOf, Lines, AllSpaced, WithNotice;
    ShippedMenuPhrases(lang);
    ShippedMenuNotices(lang);
    EnglishIsSpaced();
    SwahiliIsSpaced();
    FrenchIsSpaced();
    MenuLinesOf(PhrasesOf(lang));
    MenuFitsIff(lang, "");
    NoNotice(MenuOf(PhrasesOf(lang)));
    MenuWhole(TITLE, ItemsOf(PhrasesOf(lang)));
  }

  lemma NoNotice(s: string)
    ensures WithNotice("", s) == s
  {
  }

  /** Each row of the shipped menu leads where it says: "1" to the titled timeline of
      what the instance answers, "2" to the notice about the project, and "0" to the
      farewell; the last two end the dialogue. */
  lemma ShippedMenuLeads(posts: seq<Post>, st: Stored<State>, ev: Event, turn: nat)
    requires st.screen == "menu" && Types(ev) && LastInput(ev) in {"0", "1", "2"}
    ensures var r := Step(ReaderApp(SHIPPED, Some(posts)), st, ev, turn);
            && r.Ok?
            && (LastInput(ev) == "1" ==>
              && r.value.state.Some? && r.value.state.value.screen == "timeline" && r.value.state.value.app.posts == posts
              && "Latest posts" <= r.value.response.body)
            && (LastInput(ev) == "2" ==> r.value == Turned(Response(Shrunk(ENGLISH["about.body"]), true), None))
            && (LastInput(ev) == "0" ==>
              var farewell := if st.lang == "sw" then "Kwaheri." else if st.lang == "fr" then "Au revoir." else "Goodbye.";
              r.value == Turned(Response(farewell, true), None))
  {
    hide SHIPPED, ENGLISH, SWAHILI, FRENCH, Step, ReaderApp, Shrunk, Translate, Lines, TimelineItems, QuitItem;
    if LastInput(ev) == "1" {
      MenuFetches(SHIPPED, posts, st, ev, turn);
      ListsUnderTitle(ContextOf(st, ev, turn).(state := st.app.(posts := posts)));
    } else {
      MenuEnds(SHIPPED, Some(posts), st, ev, turn);
      ClosingPhrases(st.lang);
      ClosingFits();
      ShrinkFits(Translate(SHIPPED, st.lang, "session.ended"));
    }
  }

  lemma ListsUnderTitle(c: Context<State>)
    ensures var t := ShowTimeline(SHIPPED, c, "");
            t.state.value.screen == "timeline" && t.state.value.app.posts == c.state.posts && "Latest posts" <= t.response.body
  {
    hide SHIPPED, ENGLISH, SWAHILI, FRENCH, Translate, Lines, TimelineItems, QuitItem, Shrunk, Fits, Shown, Rows, Split;
    ShippedTimeline(c, "");
    TitlePhrase(c.lang);
  }

  lemma ClosingPhrases(lang: string)
    ensures Translate(SHIPPED, lang, "about.body") == ENGLISH["about.body"]
    ensures Translate(SHIPPED, lang, "session.ended") ==
            if lang == "sw" then "Kwaheri." else if lang == "fr" then "Au revoir." else "Goodbye."
  {
    hide Translate, SHIPPED;
    EnglishOnly(lang, "about.body");
    InTables(lang, "session.ended");
  }

  lemma ClosingFits()
    ensures Fits("Kwaheri.") && Fits("Au revoir.") && Fits("Goodbye.")
  {
    hide Fits;
    ShortFits("Kwaheri.");
    ShortFits("Au revoir.");
    ShortFits("Goodbye.");
  }
}
