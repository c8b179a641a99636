/** The fediverse reader: a timeline, the pages of a post, and the controls that
    lead between them. */
module Reader {
  import opened Text
  import opened Encoding
  import opened Truncation
  import opened Gsm
  import opened Pagination
  import opened Menus
  import opened Canonical
  import opened Sdk

  datatype Post = Post(author: string, text: string, when: string)

  /** The application's own state: the fetched posts, the one being read, the page
      within it, and how many the last timeline screen listed. */
  datatype State = State(posts: seq<Post>, cursor: nat, page: nat, listed: nat)

  const MAX_HEADER_LEN: int := 28
  const WIDEST_PAGE_COUNTER: nat := 99

  function Digit(d: nat): (c: char)
    requires d < 10
    ensures IsBasic(c) && !IsSpace(c)
  {
    '0' + d as char
  }

  /** `strconv.Itoa` of a natural number. */
  function Decimal(n: nat): string {
    if n < 10 then [Digit(n)] else Decimal(n / 10) + [Digit(n % 10)]
  }

  // ---------- the screen of one page ----------

  /** The author line, with a page counter when there are several pages. */
  function PostHeader(p: Post, page: nat, pages: nat): string {
    LabelOf(p.author, MAX_HEADER_LEN, "Post") +
    if pages > 1 then " (" + Decimal(page) + "/" + Decimal(pages) + ")" else ""
  }

  function NavText(controls: seq<string>): string {
    InGsm(Join(controls, " "))
  }

  /** The three controls of a bundle and language. */
  datatype Nav = Nav(next: string, prev: string, back: string)

  function NavOf(b: Bundle, lang: string): Nav {
    Nav(Translate(b, lang, "nav.next"), Translate(b, lang, "nav.prev"), Translate(b, lang, "nav.back"))
  }

  /** What a page must leave room for: the widest header and every control. */
  function ReserveFor(p: Post, nav: Nav): nat {
    |PostHeader(p, WIDEST_PAGE_COUNTER, WIDEST_PAGE_COUNTER)| + |NavText([nav.next, nav.prev, nav.back])| + 2
  }

  function PagesOf(p: Post, nav: Nav): seq<string> {
    Pages(p.text, ReserveFor(p, nav))
  }

  /** The controls that lead somewhere from page `page` of `pages`. */
  function Controls(nav: Nav, page: nat, pages: nat): seq<string> {
    (if page + 1 < pages then [nav.next] else []) + (if page > 0 then [nav.prev] else []) + [nav.back]
  }

  function PageScreen(p: Post, nav: Nav, page: nat): string
    requires page < |PagesOf(p, nav)|
  {
    var pages := PagesOf(p, nav);
    PostHeader(p, page + 1, |pages|) + "\n" + pages[page] + "\n" + NavText(Controls(nav, page, |pages|))
  }

  // ---------- the screens, as functions of the state ----------

  function PostPages(st: State, nav: Nav): seq<string> {
    if st.cursor >= |st.posts| then [] else PagesOf(st.posts[st.cursor], nav)
  }

  /** The page of `pages` a state shows, clamped to the last. */
  function ShownPage(st: State, pages: nat): nat {
    if st.page >= pages && pages > 0 then pages - 1 else st.page
  }

  function PostBody(b: Bundle, lang: string, st: State): string {
    var nav := NavOf(b, lang);
    var pages := PostPages(st, nav);
    if pages == [] then Translate(b, lang, "error.empty")
    else PageScreen(st.posts[st.cursor], nav, ShownPage(st, |pages|))
  }

  function PostPrompt(b: Bundle, c: Context<State>): Drawn<State> {
    var pages := PostPages(c.state, NavOf(b, c.lang));
    Drawn(PostBody(b, c.lang, c.state), c.state.(page := ShownPage(c.state, |pages|)), c.lang)
  }

  function Refuse(b: Bundle, lang: string, st: State): Decided<State> {
    Decided(Stay(Translate(b, lang, "error.choice")), st, lang)
  }

  function PostHandle(b: Bundle, c: Context<State>, input: string): Decided<State> {
    var st, pages := c.state, |PostPages(c.state, NavOf(b, c.lang))|;
    if input == "1" && st.page + 1 < pages then Decided(Goto("post"), st.(page := st.page + 1), c.lang)
    else if input == "2" && st.page > 0 then Decided(Goto("post"), st.(page := st.page - 1), c.lang)
    else if input == "0" then Decided(Goto("timeline"), st, c.lang)
    else Refuse(b, c.lang, st)
  }

  function TimelineItem(p: Post, i: nat): MenuItem {
    var author := LabelOf(p.author, MAX_HEADER_LEN, "Post " + Decimal(i + 1));
    MenuItem(Decimal(i + 1), author + if p.when != "" then " (" + p.when + ")" else "")
  }

  function TimelineItems(posts: seq<Post>): (items: seq<MenuItem>)
    ensures |items| == |posts|
  {
    if posts == [] then []
    else TimelineItems(posts[..|posts| - 1]) + [TimelineItem(posts[|posts| - 1], |posts| - 1)]
  }

  function TimelineTitle(b: Bundle, lang: string, notice: string): string {
    var title := Translate(b, lang, "timeline.title");
    if notice != "" then notice + "\n" + title else title
  }

  function QuitItem(b: Bundle, lang: string): seq<MenuItem> {
    [MenuItem("0", Translate(b, lang, "menu.quit"))]
  }

  /** The listed count and the screen that shows it. */
  function TimelinePrompt(b: Bundle, c: Context<State>): Drawn<State> {
    var title, items, footer := TimelineTitle(b, c.lang, c.notice), TimelineItems(c.state.posts), QuitItem(b, c.lang);
    if Fits(title + Lines(footer)) then
      var shown := Shown(title, items, footer, |items|);
      Drawn(FitText(title, items, footer, shown), c.state.(listed := shown), c.lang)
    else Drawn(Shrunk(title + Lines(footer)), c.state.(listed := 0), c.lang)
  }

  predicate IsDigit(c: char) {
    '0' <= c <= '9'
  }

  function Natural(s: string): (n: Option<nat>)
    ensures n.Some? ==> s != ""
  {
    if s == "" || !IsDigit(s[|s| - 1]) then None
    else
      var d := (s[|s| - 1] - '0') as nat;
      if |s| == 1 then Some(d)
      else
        match Natural(s[..|s| - 1])
        case None => None
        case Some(n) => Some(10 * n + d)
  }

  /** `strconv.Atoi`, on unbounded integers. */
  function Atoi(s: string): Option<int> {
    if s != "" && (s[0] == '+' || s[0] == '-') then
      match Natural(s[1..])
      case None => None
      case Some(n) => var m: int := n; Some(if s[0] == '-' then -m else m)
    else
      match Natural(s)
      case None => None
      case Some(n) => Some(n)
  }

  /** The number an input selects among `listed` items, if it selects one. */
  function Choice(input: string, listed: nat): (n: Option<nat>)
    ensures n.Some? ==> 1 <= n.value <= listed
  {
    match Atoi(TrimSpace(input))
    case None => None
    case Some(n) => if 1 <= n <= listed then Some(n) else None
  }

  function TimelineHandle(b: Bundle, c: Context<State>, input: string): Decided<State> {
    if input == "0" then Decided(Finish(Translate(b, c.lang, "session.ended")), c.state, c.lang)
    else
      match Choice(input, c.state.listed)
      case None => Refuse(b, c.lang, c.state)
      case Some(n) => Decided(Goto("post"), c.state.(cursor := n - 1, page := 0), c.lang)
  }

  function MenuPrompt(b: Bundle, c: Context<State>): Drawn<State> {
    var items := [MenuItem("1", Translate(b, c.lang, "menu.timeline")), MenuItem("2", Translate(b, c.lang, "menu.about")),
                  MenuItem("0", Translate(b, c.lang, "menu.quit"))];
    Drawn(MenuText(Translate(b, c.lang, "menu.title"), items), c.state, c.lang)
  }

  /** `fetch` is what the instance answers this turn; None when it cannot be
      reached. */
  function MenuHandle(b: Bundle, fetch: Option<seq<Post>>, c: Context<State>, input: string): Decided<State> {
    if input == "1" then
      match fetch
      case None => Decided(Stay(Translate(b, c.lang, "error.fetch")), c.state, c.lang)
      case Some(posts) => Decided(Goto("timeline"), c.state.(posts := posts), c.lang)
    else if input == "2" then Decided(Goto("about"), c.state, c.lang)
    else if input == "0" then Decided(Finish(Translate(b, c.lang, "session.ended")), c.state, c.lang)
    else Refuse(b, c.lang, c.state)
  }

  // ---------- the screens, as the code that mutates the state ----------

  method HeaderFor(p: Post, page: nat, pages: nat) returns (header: string)
    ensures header == PostHeader(p, page, pages)
  {
    hide LabelOf;
    header := Label(p.author, MAX_HEADER_LEN, "Post");
    if pages > 1 {
      header := header + (" (" + Decimal(page) + "/" + Decimal(pages) + ")");
    } else {
      assert header + "" == header;
    }
  }

  class ReaderContext {
    const bundle: Bundle
    const lang: string
    const notice: string
    var state: State

    constructor (bundle: Bundle, lang: string, notice: string, state: State)
      ensures this.bundle == bundle && this.lang == lang && this.notice == notice && this.state == state
    {
      this.bundle, this.lang, this.notice, this.state := bundle, lang, notice, state;
    }

    function Snapshot(ev: Event, turn: nat): Context<State>
      reads this
    {
      Context(ev, turn, state, lang, notice)
    }

    method ReadPages() returns (pages: seq<string>)
      ensures pages == PostPages(state, NavOf(bundle, lang))
    {
      hide PostHeader, InGsm, Pages, Join, Translate;
      if state.cursor >= |state.posts| {
        return [];
      }
      var post := state.posts[state.cursor];
      var header := HeaderFor(post, WIDEST_PAGE_COUNTER, WIDEST_PAGE_COUNTER);
      var all := NavOf(bundle, lang);
      var nav := ToGSM(Join([all.next, all.prev, all.back], " "));
      pages := Paginate(post.text, |header| + |nav| + 2);
    }

    method RenderPost(ghost ev: Event, ghost turn: nat) returns (body: string)
      modifies this
      ensures Drawn(body, state, lang) == PostPrompt(bundle, old(Snapshot(ev, turn)))
    {
      hide PagesOf, PostHeader, InGsm, Join, Translate;
      var pages := ReadPages();
      if |pages| == 0 {
        return Translate(bundle, lang, "error.empty");
      }
      if state.page >= |pages| {
        state := state.(page := |pages| - 1);
      }
      var header := HeaderFor(state.posts[state.cursor], state.page + 1, |pages|);
      var nav := [];
      if state.page < |pages| - 1 {
        nav := nav + [Translate(bundle, lang, "nav.next")];
      }
      if state.page > 0 {
        nav := nav + [Translate(bundle, lang, "nav.prev")];
      }
      nav := nav + [Translate(bundle, lang, "nav.back")];
      assert nav == Controls(NavOf(bundle, lang), state.page, |pages|);
      var navText := ToGSM(Join(nav, " "));
      body := header + "\n" + pages[state.page] + "\n" + navText;
    }

    method HandlePost(input: string, ghost ev: Event, ghost turn: nat) returns (action: Action)
      modifies this
      ensures Decided(action, state, lang) == PostHandle(bundle, old(Snapshot(ev, turn)), input)
    {
      hide PagesOf, Translate;
      var pages := ReadPages();
      if input == "1" {
        if state.page >= |pages| - 1 {
          return Stay(Translate(bundle, lang, "error.choice"));
        }
        state := state.(page := state.page + 1);
        return Goto("post");
      } else if input == "2" {
        if state.page == 0 {
          return Stay(Translate(bundle, lang, "error.choice"));
        }
        state := state.(page := state.page - 1);
        return Goto("post");
      } else if input == "0" {
        return Goto("timeline");
      }
      return Stay(Translate(bundle, lang, "error.choice"));
    }

    method RenderTimeline(ghost ev: Event, ghost turn: nat) returns (body: string)
      modifies this
      ensures Drawn(body, state, lang) == TimelinePrompt(bundle, old(Snapshot(ev, turn)))
    {
      var items := [];
      for i := 0 to |state.posts|
        invariant state == old(state)
        invariant items == TimelineItems(state.posts[..i])
      {
        var p := state.posts[i];
        assert state.posts[..i + 1][..i] == state.posts[..i];
        var author := Label(p.author, MAX_HEADER_LEN, "Post " + Decimal(i + 1));
        if p.when != "" {
          author := author + (" (" + p.when + ")");
        } else {
          author := author + "";
        }
        items := items + [MenuItem(Decimal(i + 1), author)];
      }
      assert state.posts[..|state.posts|] == state.posts;
      var title := Translate(bundle, lang, "timeline.title");
      if notice != "" {
        title := notice + "\n" + title;
      }
      var shown;
      body, shown := MenuFit(title, items, [MenuItem("0", Translate(bundle, lang, "menu.quit"))]);
      state := state.(listed := shown);
    }

    method HandleMenu(fetch: Option<seq<Post>>, input: string, ghost ev: Event, ghost turn: nat) returns (action: Action)
      modifies this
      ensures Decided(action, state, lang) == MenuHandle(bundle, fetch, old(Snapshot(ev, turn)), input)
    {
      if input == "1" {
        if fetch.None? {
          return Stay(Translate(bundle, lang, "error.fetch"));
        }
        state := state.(posts := fetch.value);
        return Goto("timeline");
      } else if input == "2" {
        return Goto("about");
      } else if input == "0" {
        return Finish(Translate(bundle, lang, "session.ended"));
      }
      return Stay(Translate(bundle, lang, "error.choice"));
    }

    method HandleTimeline(input: string, ghost ev: Event, ghost turn: nat) returns (action: Action)
      modifies this
      ensures Decided(action, state, lang) == TimelineHandle(bundle, old(Snapshot(ev, turn)), input)
    {
      if input == "0" {
        return Finish(Translate(bundle, lang, "session.ended"));
      }
      var n := Atoi(TrimSpace(input));
      if n.None? || n.value < 1 || n.value > state.listed {
        return Stay(Translate(bundle, lang, "error.choice"));
      }
      state := state.(cursor := n.value - 1);
      state := state.(page := 0);
      return Goto("post");
    }
  }

  // ---------- the application ----------

  function ReaderApp(b: Bundle, fetch: Option<seq<Post>>): App<State> {
    App(map[
          "menu" := Screen("menu",
            Some((c: Context<State>) => Ok(MenuPrompt(b, c))),
            Some((c: Context<State>, input: string) => Ok(MenuHandle(b, fetch, c, input)))),
          "timeline" := Screen("timeline",
            Some((c: Context<State>) => Ok(TimelinePrompt(b, c))),
            Some((c: Context<State>, input: string) => Ok(TimelineHandle(b, c, input)))),
          "post" := Screen("post",
            Some((c: Context<State>) => Ok(PostPrompt(b, c))),
            Some((c: Context<State>, input: string) => Ok(PostHandle(b, c, input)))),
          "about" := Screen("about",
            Some((c: Context<State>) => Ok(Drawn(Translate(b, c.lang, "about.body"), c.state, c.lang))),
            None)
        ],
        "menu", State([], 0, 0, 0), "en", b)
  }
}
