/** The gateway on the in-process store, with its clock, its deadlines and its
    sweeper: a run of turns on it answers as a run on the map of live sessions in
    which every session that expires is a timeout. */
module MemoryRuns {
  import opened Canonical
  import opened Routing
  import opened Sessions
  import opened Webhook
  import opened Gateway

  type Items = map<string, Item>

  /** One turn, loading at `loadAt` and storing at its callback's time, or one sweep
      by an earlier reading of the clock. */
  datatype Move = Serve(loadAt: int, cb: Callback) | Sweep(readAt: int, at: int)

  function FinishedAt(m: Move): int {
    match m
    case Serve(_, cb) => cb.now
    case Sweep(_, at) => at
  }

  function StartedAt(m: Move): int {
    match m
    case Serve(loadAt, _) => loadAt
    case Sweep(_, at) => at
  }

  function FoundAt(items: Items, key: Key, at: int): Option<Session> {
    match Judge(key, Entry(items, KeyString(key)), at)
    case Found(s) => Some(s)
    case NotFound => None
    case BadKey => None
  }

  /** Storing or dropping a settled session on the memory store. */
  function Kept(items: Items, sess: Session, ends: bool, ev: Event, now: int, ttl: int): Items {
    if ends then items - {KeyString(KeyOfEvent(ev))}
    else items[KeyString(sess.key) := Item(Stamped(sess, now), now + ttl)]
  }

  function Served(items: Items, router: Router, loadAt: int, cb: Callback, ttl: int): (Items, Handled) {
    var ev := cb.ev;
    if Terminal(ev.phase) then (items - {KeyString(KeyOfEvent(ev))}, Handled(Response("", false)))
    else
      match RouteOf(router, ev.shortcode, ev.path)
      case NoRoute(_) => (items, Unroutable)
      case Route(target, path) =>
        var sess := Assigned(Admitted(FoundAt(items, KeyOfEvent(ev), loadAt), ev), target);
        match Accepted(cb.call(target, RequestFor(sess, ev.(path := path))))
        case None => (items, Undelivered)
        case Some(reply) =>
          (Kept(items, Settled(sess, reply), reply.response.endSession, ev, cb.now, ttl), Handled(reply.response))
  }

  /** The entries after a run of moves, and the answers of its turns. */
  function MemoryRun(moves: seq<Move>, router: Router, ttl: int): (Items, seq<Handled>) {
    if moves == [] then (map[], [])
    else
      var n := |moves| - 1;
      var before := MemoryRun(moves[..n], router, ttl);
      match moves[n]
      case Serve(loadAt, cb) =>
        var turn := Served(before.0, router, loadAt, cb, ttl);
        (turn.0, before.1 + [turn.1])
      case Sweep(readAt, _) => (Live(before.0, readAt), before.1)
  }

  /** The callbacks of a run's turns, in order. */
  function TurnsOf(moves: seq<Move>): seq<Callback> {
    if moves == [] then []
    else
      var n := |moves| - 1;
      TurnsOf(moves[..n]) + if moves[n].Serve? then [moves[n].cb] else []
  }

  /** A turn takes its time, its key is one that an adapter makes, and the memory
      store does not fail. */
  predicate ValidMove(m: Move) {
    StartedAt(m) <= FinishedAt(m) &&
    match m
    case Serve(_, cb) => cb.faults == NO_FAULTS && ValidKey(KeyOfEvent(cb.ev)) && ColonFree(cb.ev.mno)
    case Sweep(readAt, at) => readAt <= at
  }

  /** One move after the other, and the clock does not go back. */
  ghost predicate InOrder(moves: seq<Move>) {
    && (forall i | 0 <= i < |moves| :: ValidMove(moves[i]))
    && forall i, j | 0 <= i < j < |moves| :: FinishedAt(moves[i]) <= StartedAt(moves[j])
  }

  // ---------- the same run with its expiries spelled out ----------

  /** A turn, or the expiry of a session. */
  datatype Happening = Turn(cb: Callback) | Expiry(key: Key)

  /** To the live sessions an expiry is a timeout. */
  function TimeoutOf(key: Key): Callback {
    Callback(Event(key.mno, key.sessionId, "", "", [], Timeout, ""), (_, _) => NoAnswer, NO_FAULTS, 0)
  }

  function CallOf(e: Happening): Callback {
    match e
    case Turn(cb) => cb
    case Expiry(key) => TimeoutOf(key)
  }

  function Calls(es: seq<Happening>): seq<Callback> {
    if es == [] then [] else Calls(es[..|es| - 1]) + [CallOf(es[|es| - 1])]
  }

  function TurnsIn(es: seq<Happening>): seq<Callback> {
    if es == [] then []
    else TurnsIn(es[..|es| - 1]) + if es[|es| - 1].Turn? then [es[|es| - 1].cb] else []
  }

  /** What the turns of such a run are answered. */
  function Answers(es: seq<Happening>, router: Router): seq<Handled> {
    if es == [] then []
    else
      var n := |es| - 1;
      Answers(es[..n], router) +
      if es[n].Turn? then [HandleOn(After(Calls(es[..n]), router), router, es[n].cb).1] else []
  }

  lemma OneMore(es: seq<Happening>, e: Happening, router: Router)
    ensures After(Calls(es + [e]), router) == HandleOn(After(Calls(es), router), router, CallOf(e)).0
    ensures TurnsIn(es + [e]) == TurnsIn(es) + if e.Turn? then [e.cb] else []
    ensures Answers(es + [e], router) ==
            Answers(es, router) + if e.Turn? then [HandleOn(After(Calls(es), router), router, e.cb).1] else []
  {
    hide HandleOn;
    assert (es + [e])[..|es|] == es;
    var calls := Calls(es);
    assert (calls + [CallOf(e)])[..|calls|] == calls;
  }

  lemma TimeoutRemoves(store: Store, router: Router, key: Key)
    ensures HandleOn(store, router, TimeoutOf(key)).0 == store - {key}
  {
  }

  /** Expiries can be added for any keys: they remove just these, and answer no
      turn. */
  lemma {:induction false} Expire(es: seq<Happening>, router: Router, keys: set<Key>) returns (all: seq<Happening>)
    ensures After(Calls(all), router) == After(Calls(es), router) - keys
    ensures TurnsIn(all) == TurnsIn(es) && Answers(all, router) == Answers(es, router)
    decreases keys
  {
    hide HandleOn, After, Calls, TurnsIn, Answers, CallOf;
    if keys == {} {
      all := es;
      assert After(Calls(es), router) - keys == After(Calls(es), router);
    } else {
      var k :| k in keys;
      var rest := Expire(es, router, keys - {k});
      all := rest + [Expiry(k)];
      OneMore(rest, Expiry(k), router);
      assert CallOf(Expiry(k)) == TimeoutOf(k) by { ExpiryCalls(k); }
      TimeoutRemoves(After(Calls(rest), router), router, k);
      assert After(Calls(es), router) - (keys - {k}) - {k} == After(Calls(es), router) - keys;
      assert TurnsIn(rest) + [] == TurnsIn(rest) && Answers(rest, router) + [] == Answers(rest, router);
    }
  }

  lemma ExpiryCalls(k: Key)
    ensures CallOf(Expiry(k)) == TimeoutOf(k)
  {
  }

  /** The sessions of `store` whose deadline has passed by `now`. */
  function Expired(items: Items, now: int, store: Store): set<Key> {
    set k | k in store && !(KeyString(k) in items && now < items[KeyString(k)].expiresAt)
  }

  lemma ShowsLater(items: Items, from: int, now: int, store: Store)
    requires Shows(items, from, store) && from <= now
    ensures Shows(items, now, store - Expired(items, now, store))
  {
    hide KeyString, Shows;
    TimeOnlyRemoves(items, from, now, store);
    assert store - Expired(items, now, store) ==
           map k | k in store && KeyString(k) in items && now < items[KeyString(k)].expiresAt :: store[k];
  }

  lemma SweepShows(items: Items, readAt: int, now: int, store: Store)
    requires Shows(items, now, store) && readAt <= now
    ensures Shows(Live(items, readAt), now, store)
  {
    hide KeyString, ColonFree;
  }

  /** What a turn does to the entries it does to the live sessions, and it answers
      the same. */
  lemma ServedShows(items: Items, router: Router, loadAt: int, cb: Callback, ttl: int, store: Store)
    requires Shows(items, loadAt, store) && Filed(store) && ttl > 0
    requires ValidMove(Serve(loadAt, cb))
    ensures var m, g := Served(items, router, loadAt, cb, ttl), HandleOn(store, router, cb);
            m.1 == g.1 && Shows(m.0, loadAt, g.0)
  {
    hide KeyString, ColonFree, RouteOf, Accepted, Settled, Assigned, Shows, Stamped;
    var key := KeyOfEvent(cb.ev);
    FoundIsFind(items, loadAt, store, key);
    MemoryKeepsContract(items, loadAt, store, NewSession(cb.ev), cb.now, ttl);
    var route := RouteOf(router, cb.ev.shortcode, cb.ev.path);
    if !Terminal(cb.ev.phase) && route.Route? {
      var sess := Assigned(Admitted(Find(store, key), cb.ev), route.target);
      var reply := Accepted(cb.call(route.target, RequestFor(sess, cb.ev.(path := route.path))));
      if reply.Some? {
        SettledKey(store, cb.ev, route.target, reply.value);
        MemoryKeepsContract(items, loadAt, store, Settled(sess, reply.value), cb.now, ttl);
      }
    }
  }

  lemma FoundIsFind(items: Items, at: int, store: Store, key: Key)
    requires Shows(items, at, store) && ValidKey(key) && ColonFree(key.mno)
    ensures FoundAt(items, key, at) == Find(store, key)
  {
    hide KeyString, ColonFree;
  }

  lemma SettledKey(store: Store, ev: Event, target: Tenant, reply: Reply)
    requires Filed(store)
    ensures Settled(Assigned(Admitted(Find(store, KeyOfEvent(ev)), ev), target), reply).key == KeyOfEvent(ev)
  {
  }

  /** A run of the gateway on the memory store answers every turn as the run on the
      map of live sessions does in which each expiry is a timeout; and at every
      later time its entries show what is left of that map. So what is proved of
      runs on live sessions holds of it. */
  lemma {:induction false} MemoryRunIsStoreRun(moves: seq<Move>, router: Router, ttl: int, now: int)
    returns (es: seq<Happening>)
    requires InOrder(moves) && ttl > 0 && forall i | 0 <= i < |moves| :: FinishedAt(moves[i]) <= now
    ensures TurnsIn(es) == TurnsOf(moves)
    ensures Answers(es, router) == MemoryRun(moves, router, ttl).1
    ensures Shows(MemoryRun(moves, router, ttl).0, now, After(Calls(es), router))
  {
    hide HandleOn, Served, After, Calls, TurnsIn, Answers, Shows, Expired, Live, CallOf;
    if moves == [] {
      es := [];
      NothingRun(router, now);
    } else {
      var n := |moves| - 1;
      var m := moves[n];
      var items := MemoryRun(moves[..n], router, ttl).0;
      es := MemoryRunIsStoreRun(moves[..n], router, ttl, StartedAt(m));
      match m {
        case Serve(loadAt, cb) =>
          RunsKeepFiled(Calls(es), router);
          ServedShows(items, router, loadAt, cb, ttl, After(Calls(es), router));
          OneMore(es, Turn(cb), router);
          TurnCalls(cb);
          es := es + [Turn(cb)];
          items := Served(items, router, loadAt, cb, ttl).0;
        case Sweep(readAt, at) =>
          SweepShows(items, readAt, at, After(Calls(es), router));
          items := Live(items, readAt);
      }
      ShowsLater(items, StartedAt(m), now, After(Calls(es), router));
      es := Expire(es, router, Expired(items, now, After(Calls(es), router)));
    }
  }

  lemma TurnCalls(cb: Callback)
    ensures CallOf(Turn(cb)) == cb
  {
  }

  lemma NothingRun(router: Router, now: int)
    ensures TurnsIn([]) == [] && Answers([], router) == [] && Shows(map[], now, After(Calls([]), router))
  {
  }
}
