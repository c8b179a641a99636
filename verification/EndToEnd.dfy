/** Whole dialogues through gateway, webhook and SDK, compared with running the
    screen machine directly in memory. */
module EndToEnd {
  import opened Text
  import opened Encoding
  import opened Canonical
  import opened Routing
  import opened Sessions
  import opened Webhook
  import opened Gateway
  import opened Sdk
  import Handover

  /** One dialogue kept live: who answers it, for whom, how many screens so far,
      and the screen machine's own state. */
  datatype Dialogue<S> = Dialogue(tenant: string, msisdn: string, turns: nat, live: Stored<S>)

  /** Each tenant's application, by tenant name. */
  type Apps<!S> = string -> App<S>

  /** How each tenant writes its blobs, by tenant name. */
  type Codecs<!S> = string -> Codec<S>

  ghost predicate AllLawful<S(!new)>(codecs: Codecs<S>) {
    forall name :: Lawful(codecs(name))
  }

  /** The dialogue that an event continues with `target`, if there is one that can
      be read. */
  function Continued<S>(memory: map<Key, Dialogue<S>>, ev: Event, target: Tenant, faults: Faults): Option<Dialogue<S>> {
    var key := KeyOfEvent(ev);
    if !faults.load && key in memory && memory[key].msisdn == ev.msisdn && memory[key].tenant == target.name
    then Some(memory[key])
    else None
  }

  /** The in-memory machine: no blobs, no webhook, no session records. Its memory
      fails to be read, written or cleared when the store does. */
  function Direct<S>(memory: map<Key, Dialogue<S>>, router: Router, apps: Apps<S>, ev: Event, faults: Faults)
    : (map<Key, Dialogue<S>>, Handled)
  {
    if Terminal(ev.phase) then (Forgotten(memory, ev, faults), Handled(Response("", false)))
    else
      match RouteOf(router, ev.shortcode, ev.path)
      case NoRoute(_) => (memory, Unroutable)
      case Route(target, path) => DirectTurn(memory, apps(target.name), ev, faults, target, path)
  }

  function Forgotten<S>(memory: map<Key, Dialogue<S>>, ev: Event, faults: Faults): map<Key, Dialogue<S>> {
    if faults.delete then memory else memory - {KeyOfEvent(ev)}
  }

  function DirectTurn<S>(
      memory: map<Key, Dialogue<S>>, app: App<S>, ev: Event, faults: Faults, target: Tenant, path: seq<string>)
    : (map<Key, Dialogue<S>>, Handled)
  {
    var d := Continued(memory, ev, target, faults);
    var live := if d.Some? then d.value.live else Blank(app);
    var turns := if d.Some? then d.value.turns + 1 else 1;
    match Step(app, Resume(app, live), ev.(path := path), turns)
    case Failed(_) => (memory, Undelivered)
    case Ok(t) =>
      if t.state.None? then (Forgotten(memory, ev, faults), Handled(t.response))
      else if faults.save then (memory, Unsaved)
      else (memory[KeyOfEvent(ev) := Dialogue(target.name, ev.msisdn, turns, t.state.value)], Handled(t.response))
  }

  /** The same event as the gateway sees it, every tenant served by the SDK. */
  function AsCallback<S>(apps: Apps<S>, codecs: Codecs<S>, ev: Event, faults: Faults, now: int): Callback {
    Callback(ev, (t: Tenant, request: Request) => Serve(apps(t.name), codecs(t.name), request), faults, now)
  }

  /** The gateway's record of a dialogue, its tenant's blob standing for the live
      state. */
  ghost predicate Mirrors<S>(found: Option<Session>, d: Option<Dialogue<S>>, codecs: Codecs<S>, key: Key) {
    match d
    case None => found.None?
    case Some(d) =>
      && found.Some? && found.value.key == key
      && found.value.tenant == d.tenant != "" && found.value.msisdn == d.msisdn
      && found.value.turn == d.turns && found.value.state == Some(codecs(d.tenant).encode(d.live))
  }

  function At<S>(memory: map<Key, Dialogue<S>>, key: Key): Option<Dialogue<S>> {
    if key in memory then Some(memory[key]) else None
  }

  ghost predicate MirrorsAll<S>(store: Store, memory: map<Key, Dialogue<S>>, codecs: Codecs<S>) {
    forall key: Key :: Mirrors(Find(store, key), At(memory, key), codecs, key)
  }

  ghost predicate FarewellsFit<S(!new)>(apps: Apps<S>) {
    forall name, lang :: Fits(EndedText(apps(name), lang))
  }

  /** What the SDK restores from a mirrored session, after the gateway's handover
      rules, is the live state the direct machine continues with. */
  lemma RestoredIsLive<S(!new)>(
      found: Option<Session>, memory: map<Key, Dialogue<S>>, codecs: Codecs<S>, app: App<S>, ev: Event, faults: Faults,
      target: Tenant)
    requires Lawful(codecs(target.name)) && Mirrors(found, At(memory, KeyOfEvent(ev)), codecs, KeyOfEvent(ev))
    ensures var sess := Assigned(Admitted(if faults.load then None else found, ev), target);
            var d := Continued(memory, ev, target, faults);
            && sess.turn == (if d.Some? then d.value.turns + 1 else 1)
            && Restore(app, codecs(target.name), NormaliseState(sess.state)) == (if d.Some? then d.value.live else Blank(app))
            && sess.key == KeyOfEvent(ev) && sess.tenant == target.name && sess.msisdn == ev.msisdn
  {
    hide NormaliseState;
    assert NormaliseState(None) == None by { NoStateIsNone(); }
    var d := Continued(memory, ev, target, faults);
    if d.Some? {
      var codec, live := codecs(target.name), d.value.live;
      assert codec.decode(codec.encode(live)) == Some(live);
      WrittenIsSomething(codec, live);
    }
  }

  lemma NoStateIsNone()
    ensures NormaliseState(None) == None
  {
  }

  lemma WrittenIsSomething<S(!new)>(codec: Codec<S>, st: Stored<S>)
    requires Lawful(codec)
    ensures codec.encode(st) != "" && NormaliseState(Some(codec.encode(st))) == Some(codec.encode(st))
  {
    hide TrimSpace;
    assert NormaliseState(Some(codec.encode(st))) == Some(codec.encode(st));
  }

  /** The one answer that nothing shrinks, the farewell to input at a finished
      screen, fits if it is given. */
  ghost predicate FarewellHolds<S>(app: App<S>, live: Stored<S>, routed: Event) {
    TypesAtFinished(app, Resume(app, live), routed) ==> Fits(EndedText(app, Resume(app, live).lang))
  }

  /** The SDK's reply passes the gateway as the direct machine's outcome: a kept
      state comes back as its blob, no state comes back cleared. Only a farewell
      that does not fit is held back. */
  lemma ServedIsStepped<S(!new)>(app: App<S>, codec: Codec<S>, sess: Session, routed: Event, live: Stored<S>)
    requires Lawful(codec) && Restore(app, codec, NormaliseState(sess.state)) == live
    ensures var accepted := Accepted(Serve(app, codec, RequestFor(sess, routed)));
            match Step(app, Resume(app, live), routed, sess.turn)
            case Failed(_) => accepted.None?
            case Ok(t) =>
              && (accepted.Some? <==> FarewellHolds(app, live, routed))
              && (t.state.None? <==> t.response.endSession)
              && (accepted.Some? ==> accepted.value.response == t.response)
              && (accepted.Some? && t.state.Some? ==>
                Settled(sess, accepted.value) == sess.(state := Some(codec.encode(t.state.value))))
  {
    hide Step, NormaliseState, Restore, ValidResponse, Fits, EndedText, TypesAtFinished;
    var stored := NormaliseState(sess.state);
    NoStateIffEnded(app, codec, routed, sess.turn, stored);
    ResponsesFit(app, codec, routed, sess.turn, stored);
    NoStateIsNone();
    match Step(app, Resume(app, live), routed, sess.turn)
    case Failed(_) =>
    case Ok(t) =>
      if t.state.Some? {
        WrittenIsSomething(codec, t.state.value);
      }
  }

  /** FarewellHolds for what the direct machine makes of an event. */
  ghost predicate TurnHolds<S>(memory: map<Key, Dialogue<S>>, router: Router, apps: Apps<S>, ev: Event, faults: Faults) {
    var route := RouteOf(router, ev.shortcode, ev.path);
    !Terminal(ev.phase) && route.Route? ==>
      FarewellHolds(apps(route.target.name), LiveState(memory, apps, ev, route.target, faults), ev.(path := route.path))
  }

  function LiveState<S>(
      memory: map<Key, Dialogue<S>>, apps: Apps<S>, ev: Event, target: Tenant, faults: Faults): Stored<S>
  {
    var d := Continued(memory, ev, target, faults);
    if d.Some? then d.value.live else Blank(apps(target.name))
  }

  /** One callback: the same answer exactly when no farewell is held back, and then
      the stores still mirror each other. */
  lemma TurnMirrors<S(!new)>(
      store: Store, memory: map<Key, Dialogue<S>>, router: Router, apps: Apps<S>, codecs: Codecs<S>, ev: Event,
      faults: Faults, now: int)
    requires AllLawful(codecs) && NamedTenants(router) && MirrorsAll(store, memory, codecs)
    ensures var g := HandleOn(store, router, AsCallback(apps, codecs, ev, faults, now));
            var d := Direct(memory, router, apps, ev, faults);
            && (g.1 == d.1 <==> TurnHolds(memory, router, apps, ev, faults))
            && (g.1 == d.1 ==> MirrorsAll(g.0, d.0, codecs))
  {
    hide RouteOf, Accepted, Serve, Step, Settled, Assigned, Admitted, Restore, NormaliseState, Lawful, Resume, FarewellHolds;
    var key := KeyOfEvent(ev);
    var cb := AsCallback(apps, codecs, ev, faults, now);
    var route := RouteOf(router, ev.shortcode, ev.path);
    if !Terminal(ev.phase) && route.Route? {
      var target := route.target;
      var codec := codecs(target.name);
      assert Mirrors(Find(store, key), At(memory, key), codecs, key);
      RestoredIsLive(Find(store, key), memory, codecs, apps(target.name), ev, faults, target);
      var sess := Assigned(Admitted(Loaded(store, cb), ev), target);
      ServedIsStepped(apps(target.name), codec, sess, ev.(path := route.path), LiveState(memory, apps, ev, target, faults));
      FailedHolds(apps(target.name), LiveState(memory, apps, ev, target, faults), ev.(path := route.path), sess.turn);
      assert target.name != "";
    }
    var g, d := HandleOn(store, router, cb), Direct(memory, router, apps, ev, faults);
    if g.1 == d.1 {
      forall k: Key ensures Mirrors(Find(g.0, k), At(d.0, k), codecs, k) {
        assert Mirrors(Find(store, k), At(memory, k), codecs, k);
      }
    }
  }

  lemma FailedHolds<S>(app: App<S>, live: Stored<S>, routed: Event, turn: nat)
    ensures Step(app, Resume(app, live), routed, turn).Failed? ==> FarewellHolds(app, live, routed)
  {
    hide Resume, Fits, EndedText, RenderOf, Follow;
  }

  // ---------- whole runs ----------

  /** An event, its time, what fails around it, and the applications as they behave
      at that moment: what they ask of the outside world may be answered
      differently each turn. */
  datatype Moment<!S> = Moment(ev: Event, now: int, faults: Faults, apps: Apps<S>)

  /** The answers of a run at the gateway. */
  function GatewayRun<S>(run: seq<Moment<S>>, router: Router, codecs: Codecs<S>): (Store, seq<Handled>) {
    if run == [] then (map[], [])
    else
      var n := |run| - 1;
      var before := GatewayRun(run[..n], router, codecs);
      var turn := HandleOn(before.0, router, AsCallback(run[n].apps, codecs, run[n].ev, run[n].faults, run[n].now));
      (turn.0, before.1 + [turn.1])
  }

  /** The answers of the same run in memory. */
  function DirectRun<S>(run: seq<Moment<S>>, router: Router): (map<Key, Dialogue<S>>, seq<Handled>) {
    if run == [] then (map[], [])
    else
      var n := |run| - 1;
      var before := DirectRun(run[..n], router);
      var turn := Direct(before.0, router, run[n].apps, run[n].ev, run[n].faults);
      (turn.0, before.1 + [turn.1])
  }

  /** No turn of the run is answered with a farewell that does not fit. */
  ghost predicate FarewellsHold<S>(run: seq<Moment<S>>, router: Router) {
    run == [] ||
    (var n := |run| - 1;
     && FarewellsHold(run[..n], router)
     && TurnHolds(DirectRun(run[..n], router).0, router, run[n].apps, run[n].ev, run[n].faults))
  }

  /** Stateless equals stateful: shipping the state out as a blob and back each
      turn shows every subscriber the very screens that keeping it in memory
      would, over every sequence of events, handovers, reused ids, failures and
      endings included, exactly when no farewell at a finished screen is too long;
      and then the stored blobs are the live states. */
  lemma {:induction false} StatelessEqualsStateful<S(!new)>(run: seq<Moment<S>>, router: Router, codecs: Codecs<S>)
    requires AllLawful(codecs) && NamedTenants(router)
    ensures GatewayRun(run, router, codecs).1 == DirectRun(run, router).1 <==> FarewellsHold(run, router)
    ensures FarewellsHold(run, router) ==> MirrorsAll(GatewayRun(run, router, codecs).0, DirectRun(run, router).0, codecs)
    ensures |GatewayRun(run, router, codecs).1| == |DirectRun(run, router).1| == |run|
  {
    hide HandleOn, Direct, AllLawful, NamedTenants, MirrorsAll, TurnHolds;
    if run == [] {
      NothingMirrors(codecs);
    } else {
      var n := |run| - 1;
      StatelessEqualsStateful(run[..n], router, codecs);
      var g, d := GatewayRun(run[..n], router, codecs), DirectRun(run[..n], router);
      if FarewellsHold(run[..n], router) {
        TurnMirrors(g.0, d.0, router, run[n].apps, codecs, run[n].ev, run[n].faults, run[n].now);
      }
      var turn := HandleOn(g.0, router, AsCallback(run[n].apps, codecs, run[n].ev, run[n].faults, run[n].now));
      SameSnoc(g.1, d.1, turn.1, Direct(d.0, router, run[n].apps, run[n].ev, run[n].faults).1);
    }
  }

  lemma SameSnoc(a: seq<Handled>, b: seq<Handled>, x: Handled, y: Handled)
    requires |a| == |b|
    ensures a + [x] == b + [y] <==> a == b && x == y
  {
    if a + [x] == b + [y] {
      assert (a + [x])[..|a|] == a && (b + [y])[..|b|] == b;
      assert (a + [x])[|a|] == x && (b + [y])[|b|] == y;
    }
  }

  lemma NothingMirrors<S>(codecs: Codecs<S>)
    ensures MirrorsAll<S>(map[], map[], codecs)
  {
  }

  /** `keep` holds of a blank state and survives every step, for each of `apps`. */
  ghost predicate KeptBy<S(!new)>(apps: Apps<S>, keep: (string, Stored<S>) -> bool) {
    && (forall name :: keep(name, Blank(apps(name))))
    && forall name, st: Stored<S>, ev, turn | keep(name, st) :: StepKeeps(apps(name), name, st, ev, turn, keep)
  }

  ghost predicate StepKeeps<S>(
      app: App<S>, name: string, st: Stored<S>, ev: Event, turn: nat, keep: (string, Stored<S>) -> bool)
  {
    var r := Step(app, Resume(app, st), ev, turn);
    r.Ok? && r.value.state.Some? ==> keep(name, r.value.state.value)
  }

  /** What every step of every application keeps, every dialogue of every run has:
      handovers, reused ids and endings never mix one application's state into
      another's. */
  lemma {:induction false} RunsKeep<S(!new)>(
      run: seq<Moment<S>>, router: Router, key: Key, keep: (string, Stored<S>) -> bool)
    requires forall i | 0 <= i < |run| :: KeptBy(run[i].apps, keep)
    ensures var memory := DirectRun(run, router).0; key in memory ==> keep(memory[key].tenant, memory[key].live)
  {
    hide Step, RouteOf, Resume, KeptBy;
    if run != [] {
      var n := |run| - 1;
      RunsKeep(run[..n], router, key, keep);
      var memory := DirectRun(run[..n], router).0;
      var ev := run[n].ev;
      var route := RouteOf(router, ev.shortcode, ev.path);
      if route.Route? {
        var name := route.target.name;
        var d := Continued(memory, ev, route.target, run[n].faults);
        var live := if d.Some? then d.value.live else Blank(run[n].apps(name));
        var turns := if d.Some? then d.value.turns + 1 else 1;
        if KeyOfEvent(ev) == key {
          OneStepKeeps(run[n].apps, name, live, ev.(path := route.path), turns, keep);
        }
      }
    }
  }

  lemma OneStepKeeps<S(!new)>(
      apps: Apps<S>, name: string, st: Stored<S>, ev: Event, turn: nat, keep: (string, Stored<S>) -> bool)
    requires KeptBy(apps, keep) && (keep(name, st) || st == Blank(apps(name)))
    ensures StepKeeps(apps(name), name, st, ev, turn, keep)
  {
    hide StepKeeps, Blank;
  }

  // ---------- when no farewell can be too long ----------

  /** Farewells that always fit are never held back. */
  lemma {:induction false} FittingFarewellsHold<S(!new)>(run: seq<Moment<S>>, router: Router)
    requires forall i | 0 <= i < |run| :: FarewellsFit(run[i].apps)
    ensures FarewellsHold(run, router)
  {
    hide Fits, EndedText, RouteOf, TypesAtFinished, Resume, DirectRun;
    if run != [] {
      var n := |run| - 1;
      FittingFarewellsHold(run[..n], router);
    }
  }

  predicate TakesInput<S>(app: App<S>, screen: string) {
    screen in app.screens && app.screens[screen].handle.Some?
  }

  /** Along the run each tenant declares its screens well, starts on one that takes
      input, and does not change which ones do. */
  ghost predicate Steady<S(!new)>(run: seq<Moment<S>>) {
    && (forall i, name | 0 <= i < |run| ::
          WellDeclared(run[i].apps(name)) && TakesInput(run[i].apps(name), run[i].apps(name).start))
    && (forall i, j, name, screen | 0 <= i < |run| && 0 <= j < |run| ::
          TakesInput(run[i].apps(name), screen) <==> TakesInput(run[j].apps(name), screen))
  }

  /** Nor is any, however long, when the screens stay the same: no dialogue ever
      waits on a screen that takes no input. */
  lemma {:induction false} SteadyScreensHold<S(!new)>(run: seq<Moment<S>>, router: Router, n: nat)
    requires Steady(run) && n <= |run|
    ensures FarewellsHold(run[..n], router)
  {
    hide Steady, TurnHolds, DirectRun;
    if n > 0 {
      SteadyScreensHold(run, router, n - 1);
      SteadyTurnHolds(run, router, n - 1);
      assert run[..n][..n - 1] == run[..n - 1];
    }
  }

  lemma SteadyTurnHolds<S(!new)>(run: seq<Moment<S>>, router: Router, n: nat)
    requires Steady(run) && n < |run|
    ensures TurnHolds(DirectRun(run[..n], router).0, router, run[n].apps, run[n].ev, run[n].faults)
  {
    hide RouteOf, DirectRun, Fits, EndedText, KeptBy, WellDeclared;
    var keep := (name: string, st: Stored<S>) => st.screen == "" || TakesInput(run[n].apps(name), st.screen);
    forall i | 0 <= i < n ensures KeptBy(run[..n][i].apps, keep) {
      SteadyKept(run, n, i, keep);
    }
    RunsKeep(run[..n], router, KeyOfEvent(run[n].ev), keep);
  }

  lemma SteadyKept<S(!new)>(run: seq<Moment<S>>, n: nat, i: nat, keep: (string, Stored<S>) -> bool)
    requires Steady(run) && i < n < |run|
    requires forall name, st :: keep(name, st) <==> st.screen == "" || TakesInput(run[n].apps(name), st.screen)
    ensures KeptBy(run[i].apps, keep)
  {
    hide Step, WellDeclared, Resume;
    var apps := run[i].apps;
    forall name, st: Stored<S>, ev, turn | keep(name, st) ensures StepKeeps(apps(name), name, st, ev, turn, keep) {
      KeptStateIsResumable(apps(name), Resume(apps(name), st), ev, turn);
    }
  }

  // ---------- handover ----------

  /** Callbacks `i` and `j` of a run are consecutive ones of a dialogue, the later
      one with one input more. */
  ghost predicate OneMoreInput(cbs: seq<Callback>, i: nat, j: nat, input: string) {
    && i < j < |cbs| && KeyOfEvent(cbs[i].ev) == KeyOfEvent(cbs[j].ev)
    && (forall k | i < k < j :: KeyOfEvent(cbs[k].ev) != KeyOfEvent(cbs[j].ev))
    && cbs[j].ev.shortcode == cbs[i].ev.shortcode && cbs[j].ev.path == cbs[i].ev.path + [input]
  }

  function TenantOf(router: Router, ev: Event): Option<Tenant> {
    match RouteOf(router, ev.shortcode, ev.path)
    case NoRoute(_) => None
    case Route(target, _) => Some(target)
  }

  /** A handover, anywhere in any run whose paths grow by one input per turn: the
      new tenant is asked for turn 1 with no state. Its path is empty, and so it
      shows its start screen, exactly when it did not answer the path before
      already; that is so whenever the turn before was saved. Otherwise the turn
      before was the new tenant's own and was lost, and the input is taken for an
      answer to a start screen that was never shown. */
  lemma HandoverShowsStartScreen<S>(
      tenants: seq<Tenant>, router: Router, cbs: seq<Callback>, i: nat, j: nat, input: string,
      app: App<S>, codec: Codec<S>)
    requires Accepts(tenants) && BuiltFrom(router, tenants) && WellDeclared(app)
    requires OneMoreInput(cbs, i, j, input) && HandedOver(After(cbs[..j], router), router, cbs[j])
    ensures var request := AskedOn(After(cbs[..j], router), router, cbs[j]).value.request;
            && request.turn == 1 && request.state.None?
            && (request.event.path == [] <==> TenantOf(router, cbs[i].ev) != TenantOf(router, cbs[j].ev))
            && (MarkOf(After(cbs[..i], router), router, cbs[i]).Saved? ==> request.event.path == [])
            && TurnOf(app, codec, request.event, request.turn, request.state) ==
              (if request.event.path == [] || cbs[j].ev.phase == Begin then Opened(app, codec, request.event)
               else TakenAtStart(app, codec, request.event, input))
  {
    hide RouteOf, BuiltFrom, Accepts, RenderOf, Follow, HandleOn, MarkOf, WellDeclared;
    var key, store := KeyOfEvent(cbs[j].ev), After(cbs[..j], router);
    var asked := AskedOn(store, router, cbs[j]).value;
    NewcomerStartsClean(Loaded(store, cbs[j]), cbs[j].ev, asked.tenant);
    HandedPath(tenants, router, cbs, i, j, input);
    StartTurn(app, codec, asked.request.event, input);
    if MarkOf(After(cbs[..i], router), router, cbs[i]).Saved? {
      SavedBefore(router, cbs, i, j, input);
    }
  }

  /** Turn 1 without a path draws the start screen. */
  function Opened<S>(app: App<S>, codec: Codec<S>, ev: Event): Try<Sent>
    requires WellDeclared(app)
  {
    match RenderOf(Context(ev, 1, app.zero, app.defaultLang, ""), app.screens[app.start], "")
    case Failed(reason) => Failed(reason)
    case Ok(t) => Ok(Encoded(codec, t))
  }

  /** Turn 1 with a path takes its last input at the start screen. */
  function TakenAtStart<S>(app: App<S>, codec: Codec<S>, ev: Event, input: string): Try<Sent>
    requires WellDeclared(app)
  {
    var start := app.screens[app.start];
    if start.handle.None? then Ok(Sent(Response(EndedText(app, app.defaultLang), true), None))
    else
      var c := Context(ev, 1, app.zero, app.defaultLang, "");
      match start.handle.value(c, input)
      case Failed(reason) => Failed(reason)
      case Ok(decided) =>
        match Follow(app, c, start, decided)
        case Failed(reason) => Failed(reason)
        case Ok(t) => Ok(Encoded(codec, t))
  }

  lemma StartTurn<S>(app: App<S>, codec: Codec<S>, ev: Event, input: string)
    requires WellDeclared(app)
    requires ev.path != [] ==> LastInput(ev) == input
    ensures TurnOf(app, codec, ev, 1, None) ==
            if ev.path == [] || ev.phase == Begin then Opened(app, codec, ev) else TakenAtStart(app, codec, ev, input)
  {
    hide RenderOf, Follow;
  }

  /** The path after a handover: empty exactly when the tenant is new to it, and
      else ending in the input. */
  lemma HandedPath(tenants: seq<Tenant>, router: Router, cbs: seq<Callback>, i: nat, j: nat, input: string)
    requires Accepts(tenants) && BuiltFrom(router, tenants) && OneMoreInput(cbs, i, j, input)
    requires AskedOn(After(cbs[..j], router), router, cbs[j]).Some?
    ensures var routed := AskedOn(After(cbs[..j], router), router, cbs[j]).value.request.event;
            && (routed.path == [] <==> TenantOf(router, cbs[i].ev) != TenantOf(router, cbs[j].ev))
            && (routed.path != [] ==> LastInput(routed) == input) && routed.phase == cbs[j].ev.phase
  {
    hide RouteOf, BuiltFrom, Accepts, After, Admitted, Assigned;
    var sc, before := cbs[i].ev.shortcode, cbs[i].ev.path;
    RoutedPath(tenants, router, sc, before, input);
  }

  lemma RoutedPath(tenants: seq<Tenant>, router: Router, sc: string, before: seq<string>, input: string)
    requires Accepts(tenants) && BuiltFrom(router, tenants) && RouteOf(router, sc, before + [input]).Route?
    ensures var old', new' := RouteOf(router, sc, before), RouteOf(router, sc, before + [input]);
            && old'.Route? && (new'.path == [] <==> old'.target != new'.target)
            && (new'.path != [] ==> new'.path[|new'.path| - 1] == input)
  {
    hide RouteOf, BuiltFrom, Accepts, Answers;
    RouterIsCorrect(router, tenants, sc, before);
    RouterIsCorrect(router, tenants, sc, before + [input]);
    var old', new' := RouteOf(router, sc, before), RouteOf(router, sc, before + [input]);
    AnswerClaims(tenants, sc, before + [input], new'.target);
    AnswerStartsPath(tenants, sc, before, old'.target);
    Handover.HandoverStartsEmpty(tenants, sc, before, input, old'.target, new'.target);
    assert new'.path != [] ==> (new'.target.prefix + new'.path)[|before|] == new'.path[|new'.path| - 1];
  }

  /** A saved turn was answered by the tenant that a later handover leaves. */
  lemma SavedBefore(router: Router, cbs: seq<Callback>, i: nat, j: nat, input: string)
    requires OneMoreInput(cbs, i, j, input) && HandedOver(After(cbs[..j], router), router, cbs[j])
    requires MarkOf(After(cbs[..i], router), router, cbs[i]).Saved?
    ensures TenantOf(router, cbs[i].ev) != TenantOf(router, cbs[j].ev)
  {
    hide RouteOf, HandleOn, MarkOf, Admitted, Assigned;
    var key := KeyOfEvent(cbs[j].ev);
    RunsKeepFiled(cbs[..i], router);
    SavedIsStored(After(cbs[..i], router), router, cbs[i]);
    assert cbs[..i + 1][..i] == cbs[..i];
    SessionWaits(cbs, router, key, i + 1, j);
  }

  // ---------- a handover without its start screen ----------

  const ROOT := Tenant("root", "*1#", [], "https://root", Some("https"), "r")
  const SERVICE := Tenant("service", "*1#", ["1"], "https://service", Some("https"), "s")

  function Typed(path: seq<string>, answer: Answer): Callback {
    var ev := Event("at", "7", "+254", "*1#", path, if path == [] then Begin else Continue, "");
    Callback(ev, (_, _) => answer, NO_FAULTS, 0)
  }

  lemma TwoTenantsAccepted()
    ensures Accepts([ROOT, SERVICE])
  {
    assert [ROOT, SERVICE][0].name != [ROOT, SERVICE][1].name;
    assert RouteKey(ROOT) == "*1#|";
    assert RouteKey(SERVICE) == "*1#|1";
    assert ROOT in [ROOT, SERVICE] && IsRoot(ROOT, "*1#");
  }

  lemma TwoTenantRoutes(router: Router, path: seq<string>)
    requires BuiltFrom(router, [ROOT, SERVICE])
    ensures RouteOf(router, "*1#", path) ==
            if ["1"] <= path then Route(SERVICE, path[1..]) else Route(ROOT, path)
  {
    hide BuiltFrom, RouteOf, Accepts;
    TwoTenantsAccepted();
    RouterIsCorrect(router, [ROOT, SERVICE], "*1#", path);
    assert ROOT in [ROOT, SERVICE];
    var t := RouteOf(router, "*1#", path).target;
    AnswerStartsPath([ROOT, SERVICE], "*1#", path, t);
    assert ["1"] <= path ==> Claims([ROOT, SERVICE], "*1#", path, SERVICE);
  }

  const GREETED := Answered(Reply(Response("Hello", false), Some("state"), false))

  lemma RootIsSaved(router: Router)
    requires BuiltFrom(router, [ROOT, SERVICE])
    ensures var store := After([Typed([], GREETED)], router);
            && KeyOfEvent(Typed([], GREETED).ev) in store
            && store[KeyOfEvent(Typed([], GREETED).ev)].tenant == "root"
            && store[KeyOfEvent(Typed([], GREETED).ev)].msisdn == "+254"
  {
    hide BuiltFrom, RouteOf, NormaliseState, ValidResponse;
    var first := Typed([], GREETED);
    TwoTenantRoutes(router, []);
    HelloFits();
    assert [first][..0] == [];
    assert After([first], router) == HandleOn(map[], router, first).0;
  }

  lemma HelloFits()
    ensures ValidResponse(Response("Hello", false))
  {
    ShortTextFits("Hello", 0);
  }

  /** Such a run: the root is saved, the service is chosen but cannot be reached,
      and the next input reaches the service as turn 1 with that input. */
  lemma LostTurnLosesStartScreen(router: Router)
    requires BuiltFrom(router, [ROOT, SERVICE])
    ensures var cbs := [Typed([], GREETED), Typed(["1"], NoAnswer), Typed(["1", "x"], GREETED)];
            var store := After(cbs[..2], router);
            && Accepts([ROOT, SERVICE]) && OneMoreInput(cbs, 1, 2, "x") && HandedOver(store, router, cbs[2])
            && AskedOn(store, router, cbs[2]) ==
              Some(Asked(SERVICE, Request(VERSION, cbs[2].ev.(path := ["x"]), 1, None)))
  {
    hide BuiltFrom, RouteOf, Accepts, NormaliseState, ValidResponse;
    TwoTenantsAccepted();
    var first, second, third := Typed([], GREETED), Typed(["1"], NoAnswer), Typed(["1", "x"], GREETED);
    var cbs := [first, second, third];
    RootIsSaved(router);
    TwoTenantRoutes(router, ["1"]);
    TwoTenantRoutes(router, ["1", "x"]);
    assert ["1", "x"] == ["1"] + ["x"] && ["1", "x"][1..] == ["x"];
    var store := After([first], router);
    assert cbs[..2][..1] == [first] && cbs[..2][1] == second;
    assert After(cbs[..2], router) == HandleOn(store, router, second).0 == store;
  }
}
