/** The screen machine of the Go SDK: declaring an application, running one turn
    of a dialogue, and answering the gateway. */
module Sdk {
  import opened Text
  import opened Encoding
  import opened Truncation
  import opened Canonical
  import opened Sessions
  import opened Webhook

  datatype Try<+T> = Ok(value: T) | Failed(reason: string)

  /** Translations by language and key. */
  datatype Bundle = Bundle(fallback: string, strings: map<string, map<string, string>>)

  function Lookup(b: Bundle, lang: string, key: string): Option<string> {
    if lang in b.strings && key in b.strings[lang] then Some(b.strings[lang][key]) else None
  }

  /** The text for `key`: in `lang`, else in the fallback language, else the key. */
  function Translate(b: Bundle, lang: string, key: string): string {
    match Lookup(b, lang, key)
    case Some(v) => v
    case None =>
      match Lookup(b, if b.fallback == "" then "en" else b.fallback, key)
      case Some(v) => v
      case None => key
  }

  /** What a screen sees for one turn. */
  datatype Context<S> = Context(event: Event, turn: nat, state: S, lang: string, notice: string)

  datatype Action = Action(next: string, text: string, end: bool)

  function Goto(screen: string): Action { Action(screen, "", false) }

  function Stay(message: string): Action { Action("", message, false) }

  function Finish(message: string): Action { Action("", message, true) }

  /** A prompt's text, with the state and language as it left them. */
  datatype Drawn<S> = Drawn(body: string, state: S, lang: string)

  /** A handler's choice, with the state and language as it left them. */
  datatype Decided<S> = Decided(action: Action, state: S, lang: string)

  datatype Screen<!S> = Screen(
    name: string,
    prompt: Option<Context<S> -> Try<Drawn<S>>>,
    handle: Option<(Context<S>, string) -> Try<Decided<S>>>)

  datatype App<!S> = App(
    screens: map<string, Screen<S>>, start: string, zero: S, defaultLang: string, bundle: Bundle)

  function EndedText<S>(app: App<S>, lang: string): string {
    Translate(app.bundle, lang, "session.ended")
  }

  /** Every declared screen is filed under its name and can be drawn, and the
      start screen is one of them. */
  ghost predicate WellDeclared<S>(app: App<S>) {
    && app.start in app.screens
    && forall n | n in app.screens :: n != "" && app.screens[n].name == n && app.screens[n].prompt.Some?
  }

  /** The declarations NewApp accepts: named, drawable, no name twice, and the
      start screen among them. */
  ghost predicate Declarable<S>(start: string, screens: seq<Screen<S>>) {
    Drawable(screens) && exists s :: s in screens && s.name == start
  }

  ghost predicate Drawable<S>(screens: seq<Screen<S>>) {
    && (forall s | s in screens :: s.name != "" && s.prompt.Some?)
    && (forall i, j | 0 <= i < j < |screens| :: screens[i].name != screens[j].name)
  }

  /** The table holds exactly the screens declared so far. */
  ghost predicate Files<S>(table: map<string, Screen<S>>, screens: seq<Screen<S>>) {
    && |table| == |screens|
    && (forall s | s in screens :: s.name in table && table[s.name] == s)
    && (forall n | n in table :: table[n] in screens && table[n].name == n)
  }

  lemma DeclareOne<S>(table: map<string, Screen<S>>, done: seq<Screen<S>>, s: Screen<S>)
    requires Files(table, done) && Drawable(done)
    ensures Drawable(done + [s]) <==> s.name != "" && s.prompt.Some? && s.name !in table
    ensures s.name !in table ==> Files(table[s.name := s], done + [s])
  {
    var all := done + [s];
    assert s in all;
    if s.name in table {
      var i :| 0 <= i < |done| && done[i] == table[s.name];
      assert all[i].name == all[|done|].name;
    }
  }

  lemma DrawablePrefix<S>(screens: seq<Screen<S>>, n: nat)
    requires n <= |screens| && Drawable(screens)
    ensures Drawable(screens[..n])
  {
  }

  method NewApp<S>(start: string, screens: seq<Screen<S>>, zero: S, bundle: Bundle) returns (app: Try<App<S>>)
    ensures app.Ok? <==> Declarable(start, screens)
    ensures app.Ok? ==> WellDeclared(app.value) && Files(app.value.screens, screens)
    ensures app.Ok? ==> app.value == App(app.value.screens, start, zero, "en", bundle)
  {
    hide Drawable, Files;
    var table: map<string, Screen<S>> := map[];
    NothingFiled<S>();
    for i := 0 to |screens|
      invariant Files(table, screens[..i]) && Drawable(screens[..i])
    {
      var s := screens[i];
      assert screens[..i + 1] == screens[..i] + [s];
      DeclareOne(table, screens[..i], s);
      if Drawable(screens) {
        DrawablePrefix(screens, i + 1);
      }
      if s.name == "" {
        return Failed("a screen has no name");
      }
      if s.prompt.None? {
        return Failed("a screen has no prompt");
      }
      if s.name in table {
        return Failed("a screen is declared twice");
      }
      table := table[s.name := s];
    }
    assert screens[..|screens|] == screens;
    FiledIsDeclared(table, screens, start);
    if start !in table {
      return Failed("start screen is not declared");
    }
    return Ok(App(table, start, zero, "en", bundle));
  }

  lemma NothingFiled<S>()
    ensures Files<S>(map[], []) && Drawable<S>([])
  {
  }

  lemma FiledIsDeclared<S>(table: map<string, Screen<S>>, screens: seq<Screen<S>>, start: string)
    requires Files(table, screens) && Drawable(screens)
    ensures start in table <==> exists s :: s in screens && s.name == start
    ensures forall n | n in table :: n != "" && table[n].name == n && table[n].prompt.Some?
  {
  }

  // ---------- one turn ----------

  /** What the SDK keeps in the gateway's opaque blob. */
  datatype Stored<S> = Stored(screen: string, lang: string, app: S)

  /** How blobs are written and read; None for one that cannot be read. */
  datatype Codec<!S> = Codec(encode: Stored<S> -> Blob, decode: Blob -> Option<Stored<S>>)

  /** Writing and reading are inverse, and no state is written as "no state". */
  ghost predicate Lawful<S(!new)>(codec: Codec<S>) {
    forall st: Stored<S> ::
      && codec.decode(codec.encode(st)) == Some(st)
      && NormaliseState(Some(codec.encode(st))) == Some(codec.encode(st))
  }

  function Blank<S>(app: App<S>): Stored<S> {
    Stored("", "", app.zero)
  }

  /** The screen and language a dialogue resumes with. */
  function Resume<S>(app: App<S>, st: Stored<S>): Stored<S> {
    Stored(if st.screen == "" then app.start else st.screen, if st.lang == "" then app.defaultLang else st.lang, st.app)
  }

  function Restore<S>(app: App<S>, codec: Codec<S>, stored: Option<Blob>): Stored<S> {
    if stored.None? || stored.value == "" then Blank(app)
    else
      match codec.decode(stored.value)
      case None => Blank(app)
      case Some(st) => st
  }

  /** A response and the state to keep; no state once the dialogue is over. */
  datatype Turned<S> = Turned(response: Response, state: Option<Stored<S>>)

  function WithNotice(notice: string, body: string): string {
    if notice != "" && !(notice <= body) then notice + "\n" + body else body
  }

  function RenderOf<S>(ctx: Context<S>, screen: Screen<S>, notice: string): Try<Turned<S>> {
    if screen.prompt.None? then Failed("no prompt")
    else
      match screen.prompt.value(ctx.(notice := notice))
      case Failed(reason) => Failed(reason)
      case Ok(drawn) =>
        var body := Shrunk(WithNotice(notice, drawn.body));
        if screen.handle.None? then Ok(Turned(Response(body, true), None))
        else Ok(Turned(Response(body, false), Some(Stored(screen.name, drawn.lang, drawn.state))))
  }

  /** What follows a handler's decision on screen `current`. */
  function Follow<S>(app: App<S>, ctx: Context<S>, current: Screen<S>, decided: Decided<S>): Try<Turned<S>> {
    var after := ctx.(state := decided.state, lang := decided.lang);
    var action := decided.action;
    if action.end then
      Ok(Turned(Response(Shrunk(if action.text == "" then EndedText(app, decided.lang) else action.text), true), None))
    else if action.next == "" then RenderOf(after, current, action.text)
    else if action.next !in app.screens then Failed("unknown screen")
    else RenderOf(after, app.screens[action.next], action.text)
  }

  /** One step of the screen machine from the state `st`, which stays in memory. */
  function Step<S>(app: App<S>, st: Stored<S>, ev: Event, turn: nat): Try<Turned<S>> {
    if st.screen !in app.screens then Failed("stored screen no longer exists")
    else
      var current := app.screens[st.screen];
      var ctx := Context(ev, turn, st.app, st.lang, "");
      if ev.phase == Begin || ev.path == [] then RenderOf(ctx, current, "")
      else if current.handle.None? then Ok(Turned(Response(EndedText(app, st.lang), true), None))
      else
        match current.handle.value(ctx, LastInput(ev))
        case Failed(reason) => Failed(reason)
        case Ok(decided) => Follow(app, ctx, current, decided)
  }

  /** A response and the blob to keep. */
  datatype Sent = Sent(response: Response, state: Option<Blob>)

  function Encoded<S>(codec: Codec<S>, t: Turned<S>): Sent {
    Sent(t.response, if t.state.None? then None else Some(codec.encode(t.state.value)))
  }

  function TurnOf<S>(app: App<S>, codec: Codec<S>, ev: Event, turn: nat, stored: Option<Blob>): Try<Sent> {
    match Step(app, Resume(app, Restore(app, codec, stored)), ev, turn)
    case Failed(reason) => Failed(reason)
    case Ok(t) => Ok(Encoded(codec, t))
  }

  method Render<S>(codec: Codec<S>, ctx: Context<S>, screen: Screen<S>, prefix: string) returns (r: Try<Sent>)
    requires screen.prompt.Some?
    ensures r == match RenderOf(ctx, screen, prefix) case Failed(reason) => Failed(reason) case Ok(t) => Ok(Encoded(codec, t))
  {
    var drawn := screen.prompt.value(ctx.(notice := prefix));
    if drawn.Failed? {
      return Failed(drawn.reason);
    }
    var body := drawn.value.body;
    if prefix != "" && !(prefix <= body) {
      body := prefix + "\n" + body;
    }
    body := Shrink(body);
    var encoded := codec.encode(Stored(screen.name, drawn.value.lang, drawn.value.state));
    if screen.handle.None? {
      return Ok(Sent(Response(body, true), None));
    }
    return Ok(Sent(Response(body, false), Some(encoded)));
  }

  method Turn<S>(app: App<S>, codec: Codec<S>, ev: Event, turn: nat, stored: Option<Blob>) returns (r: Try<Sent>)
    requires WellDeclared(app)
    ensures r == TurnOf(app, codec, ev, turn, stored)
  {
    var st := Blank(app);
    if stored.Some? && |stored.value| > 0 {
      var decoded := codec.decode(stored.value);
      st := if decoded.Some? then decoded.value else Blank(app);
    }
    if st.screen == "" {
      st := st.(screen := app.start);
    }
    if st.lang == "" {
      st := st.(lang := app.defaultLang);
    }
    if st.screen !in app.screens {
      return Failed("stored screen no longer exists");
    }
    var current := app.screens[st.screen];
    var ctx := Context(ev, turn, st.app, st.lang, "");
    if ev.phase == Begin || |ev.path| == 0 {
      r := Render(codec, ctx, current, "");
      return;
    }
    if current.handle.None? {
      return Ok(Sent(Response(EndedText(app, st.lang), true), None));
    }
    var decided := current.handle.value(ctx, LastInput(ev));
    if decided.Failed? {
      return Failed(decided.reason);
    }
    var action := decided.value.action;
    ctx := ctx.(state := decided.value.state, lang := decided.value.lang);
    if action.end {
      var body := action.text;
      if body == "" {
        body := EndedText(app, ctx.lang);
      }
      body := Shrink(body);
      return Ok(Sent(Response(body, true), None));
    }
    var next := current;
    if action.next != "" {
      if action.next !in app.screens {
        return Failed("unknown screen");
      }
      next := app.screens[action.next];
    }
    r := Render(codec, ctx, next, action.text);
  }

  /** The handler behind the webhook: refuse an unknown protocol version, run the
      turn, and clear the state exactly when the turn leaves none. */
  function Serve<S>(app: App<S>, codec: Codec<S>, request: Request): Answer {
    if request.version != "" && request.version != VERSION then NoAnswer
    else
      match TurnOf(app, codec, request.event, request.turn, NormaliseState(request.state))
      case Failed(_) => NoAnswer
      case Ok(sent) => Answered(Reply(sent.response, sent.state, sent.state.None?))
  }

  // ---------- what every turn keeps ----------

  /** A turn leaves no state exactly when it ends the dialogue. */
  lemma NoStateIffEnded<S>(app: App<S>, codec: Codec<S>, ev: Event, turn: nat, stored: Option<Blob>)
    ensures var r := TurnOf(app, codec, ev, turn, stored);
            r.Ok? ==> (r.value.state.None? <==> r.value.response.endSession)
  {
    hide Shrunk;
  }

  /** The answer draws `screen`: its prompt sees the context and the notice, the
      notice stands above what it draws unless that begins with it, the whole is
      shrunk, and the state and language are kept as the prompt left them, unless
      the screen takes no input and so ends the dialogue. */
  ghost predicate Draws<S>(r: Try<Turned<S>>, screen: Screen<S>, c: Context<S>, notice: string) {
    if screen.prompt.None? then r.Failed?
    else
      match screen.prompt.value(c.(notice := notice))
      case Failed(reason) => r == Failed(reason)
      case Ok(drawn) =>
        && r.Ok? && r.value.response.endSession == screen.handle.None?
        && r.value.response.body == Shrunk(if notice <= drawn.body then drawn.body else notice + "\n" + drawn.body)
        && r.value.state == if screen.handle.None? then None else Some(Stored(screen.name, drawn.lang, drawn.state))
  }

  /** The answer ends the dialogue with a text, whole if it fits. */
  ghost predicate Ends<S>(r: Try<Turned<S>>, text: string) {
    && r.Ok? && r.value.response.endSession && r.value.state.None?
    && r.value.response.body == if Fits(text) then text else Shrunk(text)
  }

  /** The farewell in a language: the bundle's, or English, or the bare key. */
  function Farewell<S>(app: App<S>, lang: string): string {
    var english := if app.bundle.fallback == "" then "en" else app.bundle.fallback;
    if lang in app.bundle.strings && "session.ended" in app.bundle.strings[lang]
    then app.bundle.strings[lang]["session.ended"]
    else if english in app.bundle.strings && "session.ended" in app.bundle.strings[english]
    then app.bundle.strings[english]["session.ended"]
    else "session.ended"
  }

  /** What input at a screen that takes it leads to: a failure of the handler; the
      end, with the handler's own text or else the farewell in the language it left;
      the screen it names, or an error for one that is not declared; or the same
      screen again. The next screen is drawn with the handler's own state and
      language, and its text as the notice. */
  lemma DecisionIsFollowed<S>(app: App<S>, st: Stored<S>, ev: Event, turn: nat)
    requires st.screen in app.screens && app.screens[st.screen].handle.Some? && ev.phase != Begin && ev.path != []
    ensures var r, current := Step(app, st, ev, turn), app.screens[st.screen];
            match current.handle.value(Context(ev, turn, st.app, st.lang, ""), ev.path[|ev.path| - 1])
            case Failed(reason) => r == Failed(reason)
            case Ok(decided) =>
              var c, action := Context(ev, turn, decided.state, decided.lang, ""), decided.action;
              if action.end then Ends(r, if action.text != "" then action.text else Farewell(app, decided.lang))
              else if action.next == "" then Draws(r, current, c, action.text)
              else if action.next in app.screens then Draws(r, app.screens[action.next], c, action.text)
              else r.Failed?
  {
    hide Shrunk, Fits;
    forall text ensures Fits(text) ==> Shrunk(text) == text {
      ShrinkFits(text);
    }
  }

  /** The three decisions a handler can make, each what it says. */
  lemma DecisionsAre(screen: string, message: string)
    ensures var a := Goto(screen); !a.end && a.next == screen && a.text == ""
    ensures var a := Stay(message); !a.end && a.next == "" && a.text == message
    ensures var a := Finish(message); a.end && a.text == message
  {
  }

  /** Without input the current screen is drawn; with input at a finished one the
      farewell is sent; and a lost screen is an error. */
  lemma OtherTurns<S>(app: App<S>, st: Stored<S>, ev: Event, turn: nat)
    ensures var r := Step(app, st, ev, turn);
            && (st.screen !in app.screens ==> r.Failed?)
            && (st.screen in app.screens && (ev.phase == Begin || ev.path == []) ==>
              Draws(r, app.screens[st.screen], Context(ev, turn, st.app, st.lang, ""), ""))
            && (TypesAtFinished(app, st, ev) ==> r == Ok(Turned(Response(Farewell(app, st.lang), true), None)))
  {
    hide Shrunk, Fits;
  }

  /** A dialogue without a readable state starts over: at the start screen, in the
      application's own language, with its first state. */
  lemma UnreadableStartsOver<S>(app: App<S>, codec: Codec<S>, ev: Event, turn: nat, stored: Option<Blob>)
    requires stored.None? || stored.value == "" || codec.decode(stored.value).None?
    ensures TurnOf(app, codec, ev, turn, stored) ==
            match Step(app, Stored(app.start, app.defaultLang, app.zero), ev, turn)
            case Failed(reason) => Failed(reason)
            case Ok(t) => Ok(Encoded(codec, t))
  {
    hide Step;
  }

  /** A dialogue whose state can be read goes on exactly there: on its own screen,
      in its own language, with its own state; one that names no screen or no
      language goes on at the start screen, or in the application's language. */
  lemma ReadableGoesOn<S>(app: App<S>, codec: Codec<S>, ev: Event, turn: nat, stored: Blob, st: Stored<S>)
    requires stored != "" && codec.decode(stored) == Some(st)
    ensures TurnOf(app, codec, ev, turn, Some(stored)) ==
            match (if st.screen == "" && st.lang == "" then Step(app, Stored(app.start, app.defaultLang, st.app), ev, turn)
                   else if st.screen == "" then Step(app, Stored(app.start, st.lang, st.app), ev, turn)
                   else if st.lang == "" then Step(app, Stored(st.screen, app.defaultLang, st.app), ev, turn)
                   else Step(app, st, ev, turn))
            case Failed(reason) => Failed(reason)
            case Ok(t) => Ok(Encoded(codec, t))
  {
    hide Step;
  }

  /** Only protocol version 1, said or left unsaid, is served, and no state and a
      null state are the same. */
  lemma ServedVersions<S>(app: App<S>, codec: Codec<S>, request: Request)
    ensures request.version !in {"", "1"} ==> Serve(app, codec, request) == NoAnswer
    ensures request.version in {"", "1"} && (request.state.None? || TrimSpace(request.state.value) == "null") ==>
              Serve(app, codec, request) == Serve(app, codec, request.(version := "1", state := None))
  {
    hide TurnOf, TrimSpace;
  }

  /** A request that is served gets the turn it asks for: its screen, and the state
      to keep, or word to forget it exactly when the dialogue is over. A turn that
      fails is not answered. */
  lemma ServesTheTurn<S>(app: App<S>, codec: Codec<S>, request: Request)
    requires request.version in {"", "1"} && NormaliseState(request.state) == request.state
    ensures Serve(app, codec, request) ==
            match TurnOf(app, codec, request.event, request.turn, request.state)
            case Failed(_) => NoAnswer
            case Ok(sent) => Answered(Reply(sent.response, sent.state, sent.response.endSession))
  {
    hide TurnOf, NormaliseState;
    NoStateIffEnded(app, codec, request.event, request.turn, request.state);
  }

  /** Input reaches a screen that takes none. */
  predicate TypesAtFinished<S>(app: App<S>, st: Stored<S>, ev: Event) {
    st.screen in app.screens && app.screens[st.screen].handle.None? && ev.phase != Begin && ev.path != []
  }

  /** Whatever the application, the event and the blob, a response is within
      budget, with one exception: the farewell to input at a finished screen is
      sent as it is, so there the farewell text itself must fit. */
  lemma ResponsesFit<S>(app: App<S>, codec: Codec<S>, ev: Event, turn: nat, stored: Option<Blob>)
    ensures var r := TurnOf(app, codec, ev, turn, stored);
            var st := Resume(app, Restore(app, codec, stored));
            r.Ok? ==> (ValidResponse(r.value.response) <==> (TypesAtFinished(app, st, ev) ==> Fits(EndedText(app, st.lang))))
  {
    hide Shrunk, Fits, EndedText;
    forall s ensures Fits(Shrunk(s)) {
      ShrinkFits(s);
    }
  }

  /** A dialogue that can go on: its screen is declared and takes input. */
  ghost predicate Resumable<S>(app: App<S>, st: Stored<S>) {
    st.screen in app.screens && app.screens[st.screen].handle.Some?
  }

  /** A turn only ever keeps a state whose screen is declared and not terminal, so
      a dialogue never meets a lost screen or types at a finished one. */
  lemma KeptStateIsResumable<S>(app: App<S>, st: Stored<S>, ev: Event, turn: nat)
    requires WellDeclared(app)
    ensures var r := Step(app, st, ev, turn); r.Ok? && r.value.state.Some? ==> Resumable(app, r.value.state.value)
    ensures Resumable(app, st) && ev.phase != Begin && ev.path != [] ==>
              var ctx := Context(ev, turn, st.app, st.lang, "");
              var current := app.screens[st.screen];
              Step(app, st, ev, turn) ==
                match current.handle.value(ctx, LastInput(ev))
                case Failed(reason) => Failed(reason)
                case Ok(decided) => Follow(app, ctx, current, decided)
  {
    hide Shrunk, EndedText;
  }
}
