/** What the reader's user sees over several turns: which of the controls and items
    on the last screen work, and a whole post read page by page. */
module ReaderDialogue {
  import opened Text
  import opened Encoding
  import opened Truncation
  import opened Gsm
  import opened PaginationLaws
  import opened Menus
  import opened Canonical
  import opened Sdk
  import opened Reader
  import opened ReaderLaws

  // ---------- the lines of a screen ----------

  function LastLine(body: string): string {
    var lines := Split(body, '\n');
    lines[|lines| - 1]
  }

  /** What is between the first line and the last. */
  function Inner(body: string): string {
    var lines := Split(body, '\n');
    if |lines| < 2 then "" else Join(lines[1..|lines| - 1], "\n")
  }

  lemma LinesOfPage(head: string, body: string, foot: string)
    requires '\n' !in head && '\n' !in foot
    ensures LastLine(head + "\n" + body + "\n" + foot) == foot
    ensures Inner(head + "\n" + body + "\n" + foot) == body
  {
    var s := head + "\n" + body + "\n" + foot;
    SplitAppend(head + "\n" + body, foot, '\n');
    SplitAppend(head, body, '\n');
    SplitHead(head, "", '\n');
    SplitHead(foot, "", '\n');
    var lines := Split(s, '\n');
    assert lines == [head] + Split(body, '\n') + [foot];
    assert lines[1..|lines| - 1] == Split(body, '\n');
    JoinSplit(body, '\n');
  }

  // ---------- the controls on a post's screen ----------

  datatype Control = Next | Prev | Back

  function TextOf(nav: Nav, c: Control): string {
    match c
    case Next => nav.next
    case Prev => nav.prev
    case Back => nav.back
  }

  /** The control leads somewhere from page `page` of `pages`. */
  predicate Leads(c: Control, page: nat, pages: nat) {
    match c
    case Next => page + 1 < pages
    case Prev => page > 0
    case Back => true
  }

  /** What stands before a control on its line, and what follows it. */
  function Before(nav: Nav, page: nat, pages: nat, c: Control): string {
    var next := if page + 1 < pages then nav.next + " " else "";
    match c
    case Next => ""
    case Prev => next
    case Back => next + if page > 0 then nav.prev + " " else ""
  }

  function Behind(nav: Nav, page: nat, c: Control): string {
    match c
    case Next => " " + (if page > 0 then nav.prev + " " else "") + nav.back
    case Prev => " " + nav.back
    case Back => ""
  }

  /** A text that does not end in white space or as a cut text does. */
  predicate EndsClear(t: string) {
    t != "" && !IsSpace(t[|t| - 1]) && t[|t| - 1] != '.'
  }

  predicate ClearText(t: string) {
    EndsClear(t) && '\n' !in t
  }

  /** Navigation whose controls can be made out on a screen. */
  ghost predicate ClearNav(nav: Nav) {
    PlainNav(nav) && ClearText(nav.next) && ClearText(nav.prev) && ClearText(nav.back)
  }

  lemma ControlOnLine(nav: Nav, page: nat, pages: nat, c: Control)
    requires PlainNav(nav) && page < pages && Leads(c, page, pages)
    ensures NavText(Controls(nav, page, pages)) == Before(nav, page, pages, c) + TextOf(nav, c) + Behind(nav, page, c)
  {
    hide Join, InGsm, AllBasic;
    JoinControls(nav, page, pages);
    PlainJoin(nav.next, nav.prev, nav.back);
    PlainStaysPlain(Join(Controls(nav, page, pages), " "));
  }

  lemma ControlsAreOneLine(nav: Nav, page: nat, pages: nat)
    requires ClearNav(nav) && page < pages
    ensures '\n' !in NavText(Controls(nav, page, pages))
  {
    hide PlainNav, NavText, Controls, IsSpace;
    ControlOnLine(nav, page, pages, Back);
  }

  /** The screen of a page under a notice, before it is shrunk. */
  function Uncut(p: Post, nav: Nav, page: nat, notice: string): string
    requires page < |PagesOf(p, nav)|
  {
    WithNotice(notice, PageScreen(p, nav, page))
  }

  /** What of it is above the controls. */
  function Above(p: Post, nav: Nav, page: nat, notice: string): string
    requires page < |PagesOf(p, nav)|
  {
    (if notice != "" && !(notice <= PageScreen(p, nav, page)) then notice + "\n" else "") +
    PostHeader(p, page + 1, |PagesOf(p, nav)|) + "\n" + PagesOf(p, nav)[page]
  }

  lemma UncutParts(p: Post, nav: Nav, page: nat, notice: string)
    requires page < |PagesOf(p, nav)|
    ensures Uncut(p, nav, page, notice) == Above(p, nav, page, notice) + "\n" + NavText(Controls(nav, page, |PagesOf(p, nav)|))
  {
    hide PagesOf, PostHeader, NavText;
    var pages := PagesOf(p, nav);
    var h, t, n := PostHeader(p, page + 1, |pages|), pages[page], NavText(Controls(nav, page, |pages|));
    AppendFive(notice + "\n", h, t, n);
    AppendFive("", h, t, n);
  }

  lemma AppendFive(a: string, h: string, t: string, n: string)
    ensures a + (h + "\n" + t + "\n" + n) == a + h + "\n" + t + "\n" + n
    ensures "" + (h + "\n" + t + "\n" + n) == h + "\n" + t + "\n" + n
  {
  }

  /** `body` shows `full` up to what follows the control there: the control is on
      the screen. */
  predicate ShowsUpTo(body: string, full: string, behind: string) {
    |behind| <= |full| && full[..|full| - |behind|] <= body
  }

  /** `full` leaves room for the control before `behind`: all of it fits, or the
      control does with the three runes after it and the marker. */
  predicate RoomFor(full: string, behind: string) {
    Fits(full) || (3 <= |behind| <= |full| && Fits(full[..|full| - |behind| + 3] + ELLIPSIS))
  }

  /** A text is read somewhere on a screen. */
  ghost predicate Reads(body: string, text: string) {
    exists i :: OccursAt(body, text, i)
  }

  /** Exactly when a cut screen still shows a word: one that ends before a space
      shows when there is room for it, and one that ends the screen only when all
      of it fits. */
  lemma ShownIff(full: string, word: string, behind: string)
    requires full == word + behind && EndsClear(word)
    requires behind == "" || behind[0] == ' '
    ensures ShowsUpTo(Shrunk(full), full, behind) <==> RoomFor(full, behind)
  {
    hide Fits, Shrunk, IsSpace;
    assert full[..|full| - |behind|] == word;
    ShrinkFits(full);
    if !Fits(full) {
      if behind == "" {
        CutIsShorter(full);
      } else {
        SpaceIsSpace();
        assert full[|word|] == ' ';
        ShrinkKeepsWordIff(full, |word|);
      }
    }
  }

  lemma CutIsShorter(s: string)
    requires !Fits(s)
    ensures |Shrunk(s)| < |s|
  {
    hide Fits, Shrunk, MarkedFit;
    var k := ShrinkCut(s);
  }

  /** The control's place on the screen: its text, and after it a space or the end. */
  lemma ControlPlace(p: Post, nav: Nav, page: nat, notice: string, c: Control) returns (word: string)
    requires ClearNav(nav) && page < |PagesOf(p, nav)| && Leads(c, page, |PagesOf(p, nav)|)
    ensures var full, above := Uncut(p, nav, page, notice), Above(p, nav, page, notice);
            && full == word + Behind(nav, page, c) && EndsClear(word)
            && word == above + "\n" + Before(nav, page, |PagesOf(p, nav)|, c) + TextOf(nav, c)
  {
    hide PagesOf, NavText, Uncut, Above, PlainNav, Before, IsSpace, Controls;
    UncutParts(p, nav, page, notice);
    ControlOnLine(nav, page, |PagesOf(p, nav)|, c);
    var above, before, text := Above(p, nav, page, notice), Before(nav, page, |PagesOf(p, nav)|, c), TextOf(nav, c);
    word := above + "\n" + before + text;
    assert above + "\n" + (before + text + Behind(nav, page, c)) == word + Behind(nav, page, c);
  }

  /** A control is on the screen of its page exactly when the screen has room for
      it under its notice; Back, which ends the screen, only when all of it fits. */
  lemma ControlsAreShownIff(p: Post, nav: Nav, page: nat, notice: string, c: Control)
    requires ClearNav(nav) && page < |PagesOf(p, nav)| && Leads(c, page, |PagesOf(p, nav)|)
    ensures var full, behind := Uncut(p, nav, page, notice), Behind(nav, page, c);
            && (ShowsUpTo(Shrunk(full), full, behind) <==> RoomFor(full, behind))
            && (c == Back ==> (RoomFor(full, behind) <==> Fits(full)))
  {
    hide PagesOf, Uncut, Fits, Shrunk, Above, ClearNav, ShowsUpTo, Before, IsSpace;
    var word := ControlPlace(p, nav, page, notice, c);
    ShownIff(Uncut(p, nav, page, notice), word, Behind(nav, page, c));
  }

  // ---------- when no control can be read ----------

  /** No control is read above the control line, nor inside the text of Next. */
  ghost predicate OnlyOnLine(nav: Nav, above: string) {
    && (forall c: Control :: !Reads(above, TextOf(nav, c)))
    && !Reads(nav.next, nav.prev) && !Reads(nav.next, nav.back)
  }

  /** On a page with a next one no control can be read, not even as a part of
      another text, exactly when there is no room for the first. */
  lemma NoControlIsReadIff(p: Post, nav: Nav, page: nat, notice: string)
    requires ClearNav(nav) && page + 1 < |PagesOf(p, nav)| && OnlyOnLine(nav, Above(p, nav, page, notice))
    ensures (forall c: Control :: !Reads(Shrunk(Uncut(p, nav, page, notice)), TextOf(nav, c))) <==>
            !RoomFor(Uncut(p, nav, page, notice), Behind(nav, page, Next))
  {
    hide PagesOf, Uncut, Fits, Shrunk, Above, Behind, RoomFor, IsSpace, PlainNav, Reads;
    var full, above, behind := Uncut(p, nav, page, notice), Above(p, nav, page, notice), Behind(nav, page, Next);
    var word := ControlPlace(p, nav, page, notice, Next);
    assert word == above + "\n" + nav.next by { assert above + "\n" + "" + nav.next == above + "\n" + nav.next; }
    ControlsAreShownIff(p, nav, page, notice, Next);
    if RoomFor(full, behind) {
      ShownIsRead(Shrunk(full), full, above + "\n", nav.next, behind);
      assert Reads(Shrunk(full), TextOf(nav, Next));
    } else {
      assert behind != "" && behind[0] == ' ' by { SpaceFollows(nav, page); }
      var k := CutBefore(full, word, behind);
      forall c: Control ensures !Reads(Shrunk(full), TextOf(nav, c)) {
        NotReadWhenCut(full, above, nav.next, behind, k, TextOf(nav, c));
      }
    }
  }

  lemma SpaceFollows(nav: Nav, page: nat)
    ensures Behind(nav, page, Next) != "" && Behind(nav, page, Next)[0] == ' '
  {
  }

  lemma ShownIsRead(body: string, full: string, head: string, text: string, behind: string)
    requires full == head + text + behind && ShowsUpTo(body, full, behind)
    ensures Reads(body, text)
  {
    assert full[..|full| - |behind|] == head + text;
    assert OccursAt(body, text, |head|);
  }

  /** Where the cut falls when there is no room for `word`. */
  lemma CutBefore(full: string, word: string, behind: string) returns (k: nat)
    requires full == word + behind && EndsClear(word) && behind != "" && behind[0] == ' '
    requires !RoomFor(full, behind)
    ensures k < |word| && Shrunk(full) == full[..k] + ELLIPSIS
  {
    hide Fits, Shrunk, IsSpace, MarkedFit;
    k := ShrinkCut(full);
    ShownIff(full, word, behind);
    assert full[..|full| - |behind|] == word;
  }

  /** A text that ends clearly, on one line, is read on a screen cut inside `first`
      only above it or inside it. */
  lemma ReadWhenCut(full: string, above: string, first: string, behind: string, k: nat, text: string, i: int)
    requires full == above + "\n" + first + behind && k < |above| + 1 + |first| && ClearText(text)
    requires OccursAt(full[..k] + ELLIPSIS, text, i)
    ensures OccursAt(above, text, i) || (|text| < |first| && OccursAt(first, text, i - |above| - 1))
  {
    hide IsSpace, OccursAt;
    var n, e := |above|, i + |text|;
    WhereItEnds(full, k, text, i);
    SliceMembers(full, i, e);
    assert full[n] == '\n';
    assert full == above + ("\n" + first + behind);
    if e <= n {
      SliceInside("", above, "\n" + first + behind, i, e);
      SliceOccurs(above, text, i);
    } else {
      SliceInside(above + "\n", first, behind, i, e);
      SliceOccurs(first, text, i - n - 1);
    }
  }

  /** A text that ends clearly ends before the marker. */
  lemma WhereItEnds(full: string, k: nat, text: string, i: int)
    requires k <= |full| && EndsClear(text) && OccursAt(full[..k] + ELLIPSIS, text, i)
    ensures 0 <= i && i + |text| <= k && full[i..i + |text|] == text
  {
    hide IsSpace;
    var body, e := full[..k] + ELLIPSIS, i + |text|;
    assert body[e - 1] == body[i..e][|text| - 1];
    assert e <= k ==> full[i..e] == body[i..e];
  }

  lemma SliceInside(a: string, b: string, c: string, i: int, e: int)
    requires |a| <= i <= e <= |a| + |b|
    ensures (a + b + c)[i..e] == b[i - |a|..e - |a|]
  {
  }

  lemma SliceMembers(s: string, i: int, e: int)
    requires 0 <= i <= e <= |s|
    ensures forall j | i <= j < e :: s[j] in s[i..e]
  {
    forall j | i <= j < e ensures s[j] in s[i..e] {
      assert s[j] == s[i..e][j - i];
    }
  }

  lemma SliceOccurs(s: string, text: string, i: int)
    requires 0 <= i && i + |text| <= |s| && s[i..i + |text|] == text
    ensures OccursAt(s, text, i)
  {
  }

  lemma NotReadWhenCut(full: string, above: string, first: string, behind: string, k: nat, text: string)
    requires full == above + "\n" + first + behind && k < |above| + 1 + |first| && ClearText(text)
    requires !Reads(above, text) && (text == first || !Reads(first, text))
    ensures !Reads(full[..k] + ELLIPSIS, text)
  {
    hide OccursAt, ClearText;
    if i :| OccursAt(full[..k] + ELLIPSIS, text, i) {
      ReadWhenCut(full, above, first, behind, k, text, i);
    }
  }

  // ---------- only the controls that are shown work ----------

  /** The text of the post screen that `at` is on under `notice`, before it is
      shrunk: a page, or that there is nothing to show. */
  function Full(b: Bundle, at: Stored<State>, notice: string): string {
    WithNotice(notice, PostBody(b, at.lang, at.app))
  }

  function PageCount(b: Bundle, at: Stored<State>): nat {
    |PostPages(at.app, NavOf(b, at.lang))|
  }

  lemma FullIsUncut(b: Bundle, at: Stored<State>, notice: string)
    requires at.app.page < PageCount(b, at)
    ensures at.app.cursor < |at.app.posts|
    ensures var p, nav := at.app.posts[at.app.cursor], NavOf(b, at.lang);
            PageCount(b, at) == |PagesOf(p, nav)| && Full(b, at, notice) == Uncut(p, nav, at.app.page, notice)
  {
    hide PagesOf, PageScreen, WithNotice;
  }

  /** The turn shows the post screen of `at` under `notice`, and stays there. */
  ghost predicate Redraws(b: Bundle, r: Try<Turned<State>>, at: Stored<State>, notice: string) {
    r == Ok(Turned(Response(Shrunk(Full(b, at, notice)), false), Some(at)))
  }

  ghost predicate Refused(b: Bundle, r: Try<Turned<State>>, at: Stored<State>) {
    Redraws(b, r, at, Translate(b, at.lang, "error.choice"))
  }

  function TurnTo(at: Stored<State>, page: int): Stored<State> {
    at.(app := at.app.(page := Max(page, 0)))
  }

  /** Whatever is typed on a post: it turns to a neighbouring page that exists,
      leads back to the timeline, or repeats the screen under the refusal. */
  lemma PostInputs(b: Bundle, fetch: Option<seq<Post>>, at: Stored<State>, ev: Event, turn: nat)
    requires Reachable(b, at) && at.screen == "post" && Types(ev)
    ensures var r, input := Step(ReaderApp(b, fetch), at, ev, turn), LastInput(ev);
            if input == "1" && at.app.page + 1 < PageCount(b, at) then Redraws(b, r, TurnTo(at, at.app.page + 1), "")
            else if input == "2" && at.app.page > 0 then Redraws(b, r, TurnTo(at, at.app.page - 1), "")
            else if input == "0" then r == Ok(ShowTimeline(b, ContextOf(at, ev, turn), ""))
            else Refused(b, r, at)
  {
    hide Step, ReaderApp, Shrunk, WithNotice, Translate, PagesOf, PageScreen, TimelinePrompt;
    PostStep(b, fetch, at, ev, turn);
  }

  function ControlFor(input: string): Option<Control> {
    if input == "1" then Some(Next) else if input == "2" then Some(Prev) else if input == "0" then Some(Back) else None
  }

  /** The answer to a control that was accepted. */
  ghost predicate Takes(b: Bundle, r: Try<Turned<State>>, at: Stored<State>, c: Control, ev: Event, turn: nat) {
    match c
    case Next => Redraws(b, r, TurnTo(at, at.app.page + 1), "")
    case Prev => at.app.page > 0 && Redraws(b, r, TurnTo(at, at.app.page - 1), "")
    case Back => r == Ok(ShowTimeline(b, ContextOf(at, ev, turn), ""))
  }

  /** The control is on the screen `body` of `at`. */
  ghost predicate Offers(b: Bundle, at: Stored<State>, body: string, notice: string, c: Control) {
    && at.app.page < PageCount(b, at) && Leads(c, at.app.page, PageCount(b, at))
    && ShowsUpTo(body, Full(b, at, notice), Behind(NavOf(b, at.lang), at.app.page, c))
  }

  /** A turn that leaves the dialogue on a post shows the screen its state is on,
      under the refusal when the input was refused there. */
  lemma PostIsShown(
      b: Bundle, fetch: Option<seq<Post>>, st: Stored<State>, ev: Event, turn: nat, body: string, at: Stored<State>)
    returns (notice: string)
    requires Reachable(b, st) && at.screen == "post"
    requires Step(ReaderApp(b, fetch), st, ev, turn) == Ok(Turned(Response(body, false), Some(at)))
    ensures Reachable(b, at) && body == Shrunk(Full(b, at, notice))
    ensures notice == "" || (st.screen == "post" && Types(ev) && notice == Translate(b, at.lang, "error.choice"))
  {
    hide Step, ReaderApp, PagesOf, TimelinePrompt, PageScreen, Shrunk, WithNotice, Translate, Choice;
    StepKeepsReachable(b, fetch, st, ev, turn);
    var c := ContextOf(st, ev, turn);
    notice := "";
    if st.screen == "post" {
      PostStep(b, fetch, st, ev, turn);
      if Types(ev) {
        notice := PostHandle(b, c, LastInput(ev)).action.text;
      }
    } else if st.screen == "timeline" {
      TimelineStep(b, fetch, st, ev, turn);
    } else {
      MenuStep(b, fetch, st, ev, turn);
    }
  }

  /** Two turns: whatever turn left the user on a post, and whatever is typed next.
      A control is on the screen exactly when typing it is accepted and the screen
      has room for it under its notice; what is not accepted repeats the screen
      under the refusal. A post without pages offers nothing, and yet "0" leads
      back. */
  lemma OnlyShownControlsWork(
      b: Bundle, fetch: Option<seq<Post>>, later: Option<seq<Post>>, st: Stored<State>, ev: Event, turn: nat,
      body: string, at: Stored<State>, next: Event)
    returns (notice: string)
    requires Reachable(b, st) && at.screen == "post"
    requires Step(ReaderApp(b, fetch), st, ev, turn) == Ok(Turned(Response(body, false), Some(at)))
    requires ClearNav(NavOf(b, at.lang)) && Types(next)
    ensures body == Shrunk(Full(b, at, notice))
    ensures notice == "" || (st.screen == "post" && Types(ev) && notice == Translate(b, at.lang, "error.choice"))
    ensures var r := Step(ReaderApp(b, later), at, next, turn + 1);
            match ControlFor(LastInput(next))
            case None => Refused(b, r, at)
            case Some(c) =>
              && (Offers(b, at, body, notice, c) <==>
                PageCount(b, at) > 0 && Takes(b, r, at, c, next, turn + 1)
                && RoomFor(Full(b, at, notice), Behind(NavOf(b, at.lang), at.app.page, c)))
              && (Takes(b, r, at, c, next, turn + 1) || Refused(b, r, at))
              && (c == Back ==> Takes(b, r, at, c, next, turn + 1))
  {
    hide Step, ReaderApp, PostPages, TimelinePrompt, Shrunk, Full, Translate, Fits, ClearNav, Behind, RoomFor, ShowsUpTo,
      NavOf, Reachable, Offers, Redraws;
    notice := PostIsShown(b, fetch, st, ev, turn, body, at);
    PostInputs(b, later, at, next, turn + 1);
    var c := ControlFor(LastInput(next));
    if c.Some? {
      OffersIff(b, at, body, notice, c.value);
      PageInRange(b, at);
      TurnsDiffer(b, Step(ReaderApp(b, later), at, next, turn + 1), at);
    }
  }

  lemma PageInRange(b: Bundle, at: Stored<State>)
    requires Reachable(b, at) && at.screen == "post"
    ensures at.app.page < PageCount(b, at) || (PageCount(b, at) == 0 && at.app.page == 0)
  {
    hide PagesOf;
  }

  lemma OffersIff(b: Bundle, at: Stored<State>, body: string, notice: string, c: Control)
    requires Reachable(b, at) && at.screen == "post" && ClearNav(NavOf(b, at.lang))
    requires body == Shrunk(Full(b, at, notice))
    ensures Offers(b, at, body, notice, c) <==>
            && at.app.page < PageCount(b, at) && Leads(c, at.app.page, PageCount(b, at))
            && RoomFor(Full(b, at, notice), Behind(NavOf(b, at.lang), at.app.page, c))
  {
    hide PostPages, Shrunk, Full, Fits, ClearNav, Behind, RoomFor, ShowsUpTo, NavOf;
    if at.app.page < PageCount(b, at) {
      FullIsUncut(b, at, notice);
      if Leads(c, at.app.page, PageCount(b, at)) {
        ControlsAreShownIff(at.app.posts[at.app.cursor], NavOf(b, at.lang), at.app.page, notice, c);
      }
    }
  }

  /** A refusal is told apart from an answer by the state it keeps. */
  lemma TurnsDiffer(b: Bundle, r: Try<Turned<State>>, at: Stored<State>)
    ensures Refused(b, r, at) ==> !Redraws(b, r, TurnTo(at, at.app.page + 1), "")
    ensures Refused(b, r, at) && at.app.page > 0 ==> !Redraws(b, r, TurnTo(at, at.app.page - 1), "")
  {
    hide Shrunk, Full, Translate;
  }

  /** A refused input on a page with a next one: no control can be read on the
      screen exactly when, under the refusal, there is no room for the first. All
      of them still work. */
  lemma RefusalHidesControls(
      b: Bundle, fetch: Option<seq<Post>>, later: Option<seq<Post>>, at: Stored<State>, wrong: Event, next: Event, turn: nat)
    requires Reachable(b, at) && at.screen == "post" && ClearNav(NavOf(b, at.lang)) && at.app.page + 1 < PageCount(b, at)
    requires Types(wrong) && ControlFor(LastInput(wrong)) == None && Types(next)
    requires OnlyOnLine(NavOf(b, at.lang), Above(at.app.posts[at.app.cursor], NavOf(b, at.lang), at.app.page,
                                                 Translate(b, at.lang, "error.choice")))
    ensures var nav, refusal := NavOf(b, at.lang), Translate(b, at.lang, "error.choice");
            var r, s := Step(ReaderApp(b, fetch), at, wrong, turn), Step(ReaderApp(b, later), at, next, turn + 1);
            && r.Ok? && r.value.state == Some(at)
            && ((forall c: Control :: !Reads(r.value.response.body, TextOf(nav, c))) <==>
                !RoomFor(Full(b, at, refusal), Behind(nav, at.app.page, Next)))
            && (LastInput(next) == "1" ==> Takes(b, s, at, Next, next, turn + 1))
            && (LastInput(next) == "2" && at.app.page > 0 ==> Takes(b, s, at, Prev, next, turn + 1))
            && (LastInput(next) == "0" ==> Takes(b, s, at, Back, next, turn + 1))
  {
    hide Step, ReaderApp, PagesOf, PageCount, Reachable, TimelinePrompt, Shrunk, Full, Uncut, Translate, Fits, ClearNav,
      Behind, RoomFor, Reads, OnlyOnLine, NavOf, Above, Takes;
    var refusal := Translate(b, at.lang, "error.choice");
    ControlsWork(b, later, at, next, turn + 1);
    WrongInputRefuses(b, fetch, at, wrong, turn);
    FullIsUncut(b, at, refusal);
    NoControlIsReadIff(at.app.posts[at.app.cursor], NavOf(b, at.lang), at.app.page, refusal);
  }

  lemma WrongInputRefuses(b: Bundle, fetch: Option<seq<Post>>, at: Stored<State>, wrong: Event, turn: nat)
    requires Reachable(b, at) && at.screen == "post" && Types(wrong) && ControlFor(LastInput(wrong)) == None
    ensures Refused(b, Step(ReaderApp(b, fetch), at, wrong, turn), at)
  {
    hide Step, ReaderApp, PageCount, TimelinePrompt, Reachable, Redraws, Refused, Translate;
    PostInputs(b, fetch, at, wrong, turn);
  }

  lemma ControlsWork(b: Bundle, fetch: Option<seq<Post>>, at: Stored<State>, ev: Event, turn: nat)
    requires Reachable(b, at) && at.screen == "post" && at.app.page + 1 < PageCount(b, at) && Types(ev)
    ensures var s := Step(ReaderApp(b, fetch), at, ev, turn);
            && (LastInput(ev) == "1" ==> Takes(b, s, at, Next, ev, turn))
            && (LastInput(ev) == "2" && at.app.page > 0 ==> Takes(b, s, at, Prev, ev, turn))
            && (LastInput(ev) == "0" ==> Takes(b, s, at, Back, ev, turn))
  {
    hide Step, ReaderApp, PageCount, TimelinePrompt, Reachable, Redraws, Refused;
    PostInputs(b, fetch, at, ev, turn);
  }

  // ---------- only the items that are listed open ----------

  /** Some line after the title begins with `key` and a full stop. */
  ghost predicate OffersItem(body: string, title: string, key: string) {
    title <= body && exists row :: row in Split(body[|title|..], '\n') && key + ". " <= row
  }

  lemma {:induction false} WordIsOneLine(s: string)
    requires forall c | c in s :: !IsGap(Breaks, c)
    ensures OneLine(s) == s
  {
    hide IsGap;
    if s != "" {
      var n := |s| - 1;
      assert s == s[..n] + [s[n]];
      WordIsOneLine(s[..n]);
      CollapseSnoc(Breaks, s[..n], s[n]);
      assert n > 0 ==> s[..n][n - 1] in s;
    }
  }

  lemma KeyIsOneLine(n: nat)
    ensures OneLine(Decimal(n)) == Decimal(n)
  {
    DecimalIsPlain(n);
    WordIsOneLine(Decimal(n));
  }

  /** A row's key can be read off it. */
  lemma RowHasKey(n: nat, m: nat, text: string)
    ensures Decimal(n) + ". " <= Row(MenuItem(Decimal(m), text)) <==> n == m
  {
    hide OneLine, Natural, Decimal;
    KeyIsOneLine(m);
    DecimalIsPlain(n);
    DecimalIsPlain(m);
    assert Row(MenuItem(Decimal(m), text)) == Decimal(m) + ". " + OneLine(text);
    if Decimal(n) + ". " <= Row(MenuItem(Decimal(m), text)) {
      SameKey(Decimal(n), Decimal(m), OneLine(text));
      NaturalOfDecimal(n);
      NaturalOfDecimal(m);
    }
  }

  lemma SameKey(a: string, b: string, text: string)
    requires '.' !in a && '.' !in b && a + ". " <= b + ". " + text
    ensures a == b
  {
    var s := b + ". " + text;
    assert a + ". " == s[..|a| + 2];
    assert s[|a|] == '.' && s[|b|] == '.';
    assert forall i | 0 <= i < |b| :: s[i] == b[i];
    assert forall i | 0 <= i < |a| :: s[i] == a[i];
    assert |a| == |b|;
    assert a == s[..|a|] && b == s[..|b|];
  }

  lemma {:induction false} RowsAt(items: seq<MenuItem>, i: nat)
    requires i < |items|
    ensures |Rows(items)| == |items| && Rows(items)[i] == Row(items[i])
  {
    hide Row;
    if i > 0 {
      RowsAt(items[1..], i - 1);
    } else if |items| > 1 {
      RowsAt(items[1..], 0);
    }
  }

  /** The lines of a list of `k` items and the way out. */
  function ListLines(posts: seq<Post>, k: nat, quit: string): seq<string>
    requires k <= |posts|
  {
    [""] + Rows(TimelineItems(posts)[..k] + [MenuItem("0", quit)])
  }

  lemma ListLineKey(posts: seq<Post>, k: nat, quit: string, n: nat, j: nat)
    requires k <= |posts| && 1 <= j <= k + 1
    ensures |ListLines(posts, k, quit)| == k + 2 && ListLines(posts, k, quit)[0] == ""
    ensures Decimal(n) + ". " <= ListLines(posts, k, quit)[j] <==> n == if j <= k then j else 0
  {
    hide Row, Rows, Decimal, TimelineItems, LabelOf;
    var items := TimelineItems(posts)[..k] + [MenuItem("0", quit)];
    RowsAt(items, j - 1);
    ZeroIsDecimal();
    if j <= k {
      ItemKeys(posts, j - 1);
      RowHasKey(n, j, items[j - 1].text);
    } else {
      RowHasKey(n, 0, quit);
    }
  }

  /** They carry exactly the keys 0 to `k`. */
  lemma ListedKeys(posts: seq<Post>, k: nat, quit: string, n: nat)
    requires k <= |posts|
    ensures (exists row :: row in ListLines(posts, k, quit) && Decimal(n) + ". " <= row) <==> n <= k
  {
    hide Decimal, ListLines;
    var rows, key := ListLines(posts, k, quit), Decimal(n) + ". ";
    ListLineKey(posts, k, quit, n, k + 1);
    if n <= k {
      var j := if n == 0 then k + 1 else n;
      ListLineKey(posts, k, quit, n, j);
      assert rows[j] in rows;
    }
    if row :| row in rows && key <= row {
      var j :| 0 <= j < |rows| && rows[j] == row;
      assert j > 0;
      ListLineKey(posts, k, quit, n, j);
    }
  }

  lemma ZeroIsDecimal()
    ensures Decimal(0) == "0"
  {
  }

  /** The title and the way out fit a screen together. */
  predicate HasRoom(b: Bundle, lang: string, title: string) {
    Fits(title + Lines(QuitItem(b, lang)))
  }

  /** A turn that leaves the dialogue on the timeline shows it. */
  lemma TimelineIsShown(
      b: Bundle, fetch: Option<seq<Post>>, st: Stored<State>, ev: Event, turn: nat, body: string, at: Stored<State>)
    returns (c: Context<State>, notice: string)
    requires Reachable(b, st)
    requires Step(ReaderApp(b, fetch), st, ev, turn) == Ok(Turned(Response(body, false), Some(at)))
    requires at.screen == "timeline"
    ensures Reachable(b, at) && c.lang == at.lang && c.state.posts == at.app.posts
    ensures notice == "" || notice == Translate(b, at.lang, "error.choice")
    ensures ShowTimeline(b, c, notice) == Turned(Response(body, false), Some(at))
  {
    hide Step, ReaderApp, PostPrompt, Shrunk, WithNotice, Translate, Choice, PostPages, Shown, FitText, Lines,
      Fits, Reachable;
    StepKeepsReachable(b, fetch, st, ev, turn);
    c, notice := ContextOf(st, ev, turn), "";
    if st.screen == "post" {
      PostStep(b, fetch, st, ev, turn);
      c := if Types(ev) then AfterHandle(c, PostHandle(b, c, LastInput(ev))) else c;
    } else if st.screen == "timeline" {
      TimelineStep(b, fetch, st, ev, turn);
      if Types(ev) {
        var d := TimelineHandle(b, c, LastInput(ev));
        c, notice := AfterHandle(c, d), d.action.text;
      }
    } else {
      assert st.screen == "menu" by { ScreenNames(b, st); }
      MenuStep(b, fetch, st, ev, turn);
      c := c.(state := st.app.(posts := fetch.value));
    }
  }

  lemma ScreenNames(b: Bundle, st: Stored<State>)
    requires Reachable(b, st)
    ensures st.screen in {"menu", "timeline", "post"}
  {
  }

  /** The item that `input` names, if the screen lists it. */
  ghost function NamedItem(body: string, title: string, input: string): (n: Option<nat>)
    ensures n.Some? ==> n.value >= 1
  {
    match Atoi(TrimSpace(input))
    case None => None
    case Some(n) => if n >= 1 && OffersItem(body, title, Decimal(n)) then Some(n) else None
  }

  /** Two turns: whatever turn left the user on the timeline, and whatever is typed
      next. An input opens a post exactly when it reads as a number whose item the
      screen lists, and then opens that post's first page; "0", which the screen
      offers too, ends the dialogue; anything else lists the timeline again under
      the refusal. A title that leaves no room lists nothing, and nothing opens. */
  lemma OnlyListedItemsOpen(
      b: Bundle, fetch: Option<seq<Post>>, later: Option<seq<Post>>, st: Stored<State>, ev: Event, turn: nat,
      body: string, at: Stored<State>, next: Event)
    returns (title: string)
    requires Reachable(b, st)
    requires Step(ReaderApp(b, fetch), st, ev, turn) == Ok(Turned(Response(body, false), Some(at)))
    requires at.screen == "timeline" && Types(next)
    ensures title == TimelineTitle(b, at.lang, "")
            || title == TimelineTitle(b, at.lang, Translate(b, at.lang, "error.choice"))
    ensures HasRoom(b, at.lang, title) ==> OffersItem(body, title, "0")
    ensures var r, input := Step(ReaderApp(b, later), at, next, turn + 1), LastInput(next);
            var c := ContextOf(at, next, turn + 1);
            if input == "0" then r == Ok(Turned(Response(Shrunk(Translate(b, at.lang, "session.ended")), true), None))
            else
              match if HasRoom(b, at.lang, title) then NamedItem(body, title, input) else None
              case Some(n) =>
                n <= |at.app.posts| && r == Ok(ShowPost(b, c.(state := at.app.(cursor := n - 1, page := 0)), ""))
              case None => r == Ok(ShowTimeline(b, c, Translate(b, at.lang, "error.choice")))
  {
    hide Step, ReaderApp, PostPrompt, TimelinePrompt, Shrunk, WithNotice, Translate, Atoi, TrimSpace,
      OffersItem, Decimal, Fits, Lines, HasRoom;
    var c, notice := TimelineIsShown(b, fetch, st, ev, turn, body, at);
    title := TimelineTitle(b, at.lang, notice);
    TimelineStep(b, later, at, next, turn + 1);
    var number := Atoi(TrimSpace(LastInput(next)));
    if HasRoom(b, at.lang, title) {
      OffersListed(b, c, notice, 0);
      ZeroIsDecimal();
      if number.Some? && number.value >= 1 {
        OffersListed(b, c, notice, number.value);
      }
    } else {
      NothingListed(b, c, notice);
    }
  }

  lemma NothingListed(b: Bundle, c: Context<State>, notice: string)
    requires !HasRoom(b, c.lang, TimelineTitle(b, c.lang, notice))
    ensures ShowTimeline(b, c, notice).state.value.app.listed == 0
  {
    hide Shrunk, WithNotice, Translate, Shown, Fits, Lines, FitText;
  }

  lemma OffersListed(b: Bundle, c: Context<State>, notice: string, n: nat)
    requires HasRoom(b, c.lang, TimelineTitle(b, c.lang, notice))
    ensures var t := ShowTimeline(b, c, notice);
            && t.state.value.app.listed <= |c.state.posts| && t.state.value.app.posts == c.state.posts
            && (OffersItem(t.response.body, TimelineTitle(b, c.lang, notice), Decimal(n)) <==> n <= t.state.value.app.listed)
  {
    hide Fits, Lines, Rows, Split, TimelineItems, Shrunk, Translate, Decimal, WithNotice, FitText, Shown;
    TimelineShowsListed(b, c, notice);
    var t, title := ShowTimeline(b, c, notice), TimelineTitle(b, c.lang, notice);
    var rest := Lines(TimelineItems(c.state.posts)[..t.state.value.app.listed] + QuitItem(b, c.lang));
    assert (title + rest)[|title|..] == rest;
    assert Split(rest, '\n') == ListLines(c.state.posts, t.state.value.app.listed, Translate(b, c.lang, "menu.quit"));
    ListedKeys(c.state.posts, t.state.value.app.listed, Translate(b, c.lang, "menu.quit"), n);
  }

  // ---------- reading a post from end to end ----------

  /** An input, and what the instance would answer at that moment. */
  datatype Press = Press(ev: Event, fetch: Option<seq<Post>>)

  predicate Presses(p: Press, input: string) {
    Types(p.ev) && LastInput(p.ev) == input
  }

  /** The state and the screens after some turns. */
  function Played(b: Bundle, st: Stored<State>, presses: seq<Press>, turn: nat): (Stored<State>, seq<string>) {
    if presses == [] then (st, [])
    else
      var n := |presses| - 1;
      var before := Played(b, st, presses[..n], turn);
      match Step(ReaderApp(b, presses[n].fetch), before.0, presses[n].ev, turn + n)
      case Failed(_) => before
      case Ok(t) => (if t.state.Some? then t.state.value else before.0, before.1 + [t.response.body])
  }

  /** Playing on from where the first turn led. */
  lemma {:induction false} PlayedOn(b: Bundle, st: Stored<State>, first: Press, rest: seq<Press>, turn: nat)
    requires Step(ReaderApp(b, first.fetch), st, first.ev, turn).Ok?
    requires Step(ReaderApp(b, first.fetch), st, first.ev, turn).value.state.Some?
    ensures Played(b, st, [first] + rest, turn).0 ==
            Played(b, Step(ReaderApp(b, first.fetch), st, first.ev, turn).value.state.value, rest, turn + 1).0
    decreases |rest|
  {
    hide Step, ReaderApp;
    var n, all := |rest|, [first] + rest;
    if n == 0 {
      assert all == [first] && all[..0] == [];
    } else {
      PlayedOn(b, st, first, rest[..n - 1], turn);
      assert all[..n] == [first] + rest[..n - 1] && all[n] == rest[n - 1];
    }
  }

  /** Opening an item and pressing "1" now and again: each press shows the next
      page, from the first one on. */
  lemma {:induction false} PressingNextTurnsPages(
      b: Bundle, st: Stored<State>, open: Press, presses: seq<Press>, turn: nat, n: nat)
    requires Reachable(b, st) && st.screen == "timeline" && Types(open.ev)
    requires Choice(LastInput(open.ev), st.app.listed) == Some(n)
    requires n <= |st.app.posts| && |presses| < |PagesOf(st.app.posts[n - 1], NavOf(b, st.lang))|
    requires forall p | p in presses :: Presses(p, "1")
    ensures var played := Played(b, st, [open] + presses, turn);
            && played.0 == Stored("post", st.lang, st.app.(cursor := n - 1, page := |presses|))
            && |played.1| == |presses| + 1
            && forall i | 0 <= i <= |presses| ::
                 played.1[i] == Shrunk(PageScreen(st.app.posts[n - 1], NavOf(b, st.lang), i))
    decreases |presses|
  {
    hide Step, ReaderApp, Shrunk, Translate, PagesOf, PageScreen, Choice, TimelinePrompt, Reachable, Presses;
    var m, all := |presses|, [open] + presses;
    var before := Played(b, st, all[..m], turn);
    if m == 0 {
      assert all[..0] == [];
      ZeroIsNoChoice(st.app.listed);
      TimelineStep(b, open.fetch, st, open.ev, turn);
    } else {
      assert all[..m] == [open] + presses[..m - 1];
      PressingNextTurnsPages(b, st, open, presses[..m - 1], turn, n);
      assert all[m] == presses[m - 1] && presses[m - 1] in presses;
      PressedNext(b, before.0, presses[m - 1], turn + m);
    }
  }

  lemma PressedNext(b: Bundle, at: Stored<State>, press: Press, turn: nat)
    requires Presses(press, "1") && at.screen == "post" && at.app.cursor < |at.app.posts|
    requires at.app.page + 1 < |PagesOf(at.app.posts[at.app.cursor], NavOf(b, at.lang))|
    ensures Step(ReaderApp(b, press.fetch), at, press.ev, turn) ==
            Ok(Turned(Response(Shrunk(PageScreen(at.app.posts[at.app.cursor], NavOf(b, at.lang), at.app.page + 1)), false),
                      Some(at.(app := at.app.(page := at.app.page + 1)))))
  {
    hide Step, ReaderApp, Shrunk, Translate, PagesOf, PageScreen, TimelinePrompt;
    PostStep(b, press.fetch, at, press.ev, turn);
  }

  lemma ZeroIsNoChoice(listed: nat)
    ensures Choice("0", listed) == None
  {
    hide Natural, TrimSpace;
    ZeroIsDecimal();
    KeySelectsItem(0, listed);
  }

  /** What each screen shows between its header and its controls. */
  function Inners(bodies: seq<string>): seq<string> {
    if bodies == [] then [] else Inners(bodies[..|bodies| - 1]) + [Inner(bodies[|bodies| - 1])]
  }

  lemma {:induction false} InnersAre(bodies: seq<string>, pages: seq<string>)
    requires |bodies| == |pages| && forall i | 0 <= i < |pages| :: Inner(bodies[i]) == pages[i]
    ensures Inners(bodies) == pages
  {
    hide Inner;
    if pages != [] {
      var n := |pages| - 1;
      InnersAre(bodies[..n], pages[..n]);
      assert pages == pages[..n] + [pages[n]];
    }
  }

  lemma HeaderIsOneLine(p: Post, page: nat, pages: nat)
    ensures '\n' !in PostHeader(p, page, pages)
  {
    hide LabelOf, Decimal, IsBasic;
    PlainPost();
    LabelIsSafe(p.author, MAX_HEADER_LEN, "Post");
    DecimalIsPlain(page);
    DecimalIsPlain(pages);
  }

  /** The page is what the screen shows between header and controls. */
  lemma InnerIsPage(p: Post, nav: Nav, page: nat)
    requires ClearNav(nav) && page < |PagesOf(p, nav)|
    ensures Inner(PageScreen(p, nav, page)) == PagesOf(p, nav)[page]
    ensures LastLine(PageScreen(p, nav, page)) == NavText(Controls(nav, page, |PagesOf(p, nav)|))
  {
    hide PagesOf, PostHeader, NavText, LastLine, Inner, ClearNav, Controls;
    var pages := PagesOf(p, nav);
    HeaderIsOneLine(p, page + 1, |pages|);
    ControlsAreOneLine(nav, page, |pages|);
    LinesOfPage(PostHeader(p, page + 1, |pages|), pages[page], NavText(Controls(nav, page, |pages|)));
  }

  /** The conditions under which no screen of a post is cut: plain navigation, a
      counter of at most two digits twice, and no extension character in the label
      above a page in the GSM alphabet. */
  ghost predicate NeverCut(p: Post, nav: Nav) {
    && ClearNav(nav) && |PagesOf(p, nav)| <= 99
    && forall i | 0 <= i < |PagesOf(p, nav)| ::
         Extensions(LabelOf(p.author, MAX_HEADER_LEN, "Post")) == 0 || !AllGsm(PagesOf(p, nav)[i])
  }

  lemma NeverCutFits(p: Post, nav: Nav, page: nat)
    requires NeverCut(p, nav) && page < |PagesOf(p, nav)|
    ensures Fits(PageScreen(p, nav, page)) && Shrunk(PageScreen(p, nav, page)) == PageScreen(p, nav, page)
  {
    hide LabelOf, PagesOf, AllGsm, PageScreen, PlainNav, Decimal;
    CounterFitsReserve(page, |PagesOf(p, nav)|);
    PostScreensFit(p, nav, page);
  }

  /** Reading a post: an item is opened from the timeline and "1" is pressed as
      often as there are further pages. The screens are the pages in order, from
      the first, each whole between its header and its controls; the next "1" is
      refused; and what the user has read is the post: every visible rune of it,
      once and in order. */
  lemma ReadingShowsTheWholePost(
      b: Bundle, st: Stored<State>, open: Press, presses: seq<Press>, extra: Press, turn: nat, n: nat)
    requires Reachable(b, st) && st.screen == "timeline" && Types(open.ev)
    requires Choice(LastInput(open.ev), st.app.listed) == Some(n) && n <= |st.app.posts|
    requires var post, nav := st.app.posts[n - 1], NavOf(b, st.lang);
             |presses| + 1 == |PagesOf(post, nav)| && NeverCut(post, nav) && ReserveFor(post, nav) <= 68
    requires (forall p | p in presses :: Presses(p, "1")) && Presses(extra, "1")
    ensures var post, nav := st.app.posts[n - 1], NavOf(b, st.lang);
            var read := Played(b, st, [open] + presses, turn);
            && |read.1| == |PagesOf(post, nav)|
            && (forall i | 0 <= i < |read.1| :: read.1[i] == PageScreen(post, nav, i))
            && Inners(read.1) == PagesOf(post, nav)
            && Solid(Concat(Inners(read.1))) == Solid(post.text) && Partitions(Inners(read.1), post.text)
            && Refused(b, Step(ReaderApp(b, extra.fetch), read.0, extra.ev, turn + |presses| + 1), read.0)
  {
    hide Step, ReaderApp, Shrunk, Translate, PagesOf, PageScreen, Choice, Reachable, Played, NeverCut, Inner, Inners,
      ReserveFor, Solid, Concat, Partitions;
    var post, nav := st.app.posts[n - 1], NavOf(b, st.lang);
    PressingNextTurnsPages(b, st, open, presses, turn, n);
    var read := Played(b, st, [open] + presses, turn);
    forall i | 0 <= i < |read.1|
      ensures read.1[i] == PageScreen(post, nav, i) && Inner(read.1[i]) == PagesOf(post, nav)[i]
    {
      NeverCutFits(post, nav, i);
      assert ClearNav(nav) by { NeverCutIsClear(post, nav); }
      InnerIsPage(post, nav, i);
    }
    InnersAre(read.1, PagesOf(post, nav));
    PostIsPagedWhole(post, nav);
    LastPageRefuses(b, read.0, extra, turn + |presses| + 1);
  }

  lemma NeverCutIsClear(p: Post, nav: Nav)
    requires NeverCut(p, nav)
    ensures ClearNav(nav)
  {
  }

  lemma LastPageRefuses(b: Bundle, at: Stored<State>, press: Press, turn: nat)
    requires Presses(press, "1") && at.screen == "post" && at.app.cursor < |at.app.posts|
    requires at.app.page + 1 == |PagesOf(at.app.posts[at.app.cursor], NavOf(b, at.lang))|
    ensures Refused(b, Step(ReaderApp(b, press.fetch), at, press.ev, turn), at)
  {
    hide Step, ReaderApp, Shrunk, WithNotice, Translate, PagesOf, PageScreen, TimelinePrompt;
    PostStep(b, press.fetch, at, press.ev, turn);
  }
}
