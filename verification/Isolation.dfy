/** Any number of callbacks in flight at once, their loads, deliveries, saves,
    deletes and evictions interleaving freely: no tenant is ever shown state that
    it did not itself return for the same dialogue and subscriber. */
module Isolation {
  import opened Encoding
  import opened Canonical
  import opened Routing
  import opened Sessions
  import opened Webhook
  import opened Gateway

  /** How far one callback has come. */
  datatype Worker =
    | Ready(ev: Event, sess: Session)
    | Waiting(ev: Event, sess: Session)
    | Storing(ev: Event, sess: Session)
    | Deleting(ev: Event)

  /** What crossed the boundary to a tenant, or back. */
  datatype Note =
    | Delivered(tenant: string, key: Key, msisdn: string, state: Option<Blob>)
    | Returned(tenant: string, key: Key, msisdn: string, state: Option<Blob>)

  /** The shared store, the callbacks in flight, and the record of deliveries. */
  datatype World = World(store: map<string, Session>, workers: map<int, Worker>, log: seq<Note>)

  ghost predicate Init(w: World) {
    w == World(map[], map[], [])
  }

  /** One atomic step. Replies, failures, arrivals and evictions are arbitrary. */
  datatype Move =
    | Arrive(id: int, ev: Event, loadFails: bool)
    | Dispatch(id: int)
    | TakeReply(id: int, reply: Reply)
    | Persist(id: int, now: int)
    | Drop(id: int)
    | Evict(key: string)

  function FindString(store: map<string, Session>, k: string): Option<Session> {
    if k in store then Some(store[k]) else None
  }

  /** A move is possible: it finds its worker in the state it needs. */
  ghost predicate Enabled(w: World, m: Move) {
    match m
    case Arrive(id, ev, _) => id !in w.workers && ColonFree(ev.mno)
    case Dispatch(id) => id in w.workers && w.workers[id].Ready?
    case TakeReply(id, _) => id in w.workers && w.workers[id].Waiting?
    case Persist(id, _) => id in w.workers && (w.workers[id].Storing? || w.workers[id].Deleting?)
    case Drop(id) => id in w.workers
    case Evict(_) => true
  }

  /** Arrive reads the store; Dispatch routes and sends the request; TakeReply takes
      the answer; Persist writes or deletes. Drop is any failure on the way. */
  function Moved(w: World, m: Move, router: Router): World {
    match m
    case Arrive(id, ev, loadFails) =>
      var found := if loadFails then None else FindString(w.store, KeyString(KeyOfEvent(ev)));
      w.(workers := w.workers[id := if Terminal(ev.phase) then Deleting(ev) else Ready(ev, Admitted(found, ev))])
    case Dispatch(id) =>
      if id !in w.workers || !w.workers[id].Ready? then w
      else Sent(w, id, w.workers[id].ev, w.workers[id].sess, router)
    case TakeReply(id, reply) =>
      if id !in w.workers || !w.workers[id].Waiting? then w
      else Taken(w, id, w.workers[id].ev, w.workers[id].sess, reply)
    case Persist(id, now) =>
      if id !in w.workers then w
      else
        (match w.workers[id]
         case Storing(_, sess) =>
           w.(workers := w.workers - {id}, store := w.store[KeyString(sess.key) := Stamped(sess, now)])
         case Deleting(ev) =>
           w.(workers := w.workers - {id}, store := w.store - {KeyString(KeyOfEvent(ev))})
         case _ => w)
    case Drop(id) => w.(workers := w.workers - {id})
    case Evict(key) => w.(store := w.store - {key})
  }

  function Sent(w: World, id: int, ev: Event, sess: Session, router: Router): World {
    match RouteOf(router, ev.shortcode, ev.path)
    case NoRoute(_) => w.(workers := w.workers - {id})
    case Route(target, _) =>
      var given := Assigned(sess, target);
      w.(workers := w.workers[id := Waiting(ev, given)],
         log := w.log + [Delivered(target.name, KeyOfEvent(ev), ev.msisdn, given.state)])
  }

  function Taken(w: World, id: int, ev: Event, sess: Session, reply: Reply): World {
    var state := NormaliseState(reply.state);
    var settled := Settled(sess, reply.(state := state));
    w.(workers := w.workers[id := if reply.response.endSession then Deleting(ev) else Storing(ev, settled)],
       log := w.log + [Returned(sess.tenant, KeyOfEvent(ev), ev.msisdn, state)])
  }

  // ---------- the invariant ----------

  /** The state a session carries was returned by its own tenant for its own key
      and subscriber. */
  ghost predicate Owned(s: Session, log: seq<Note>) {
    s.state.Some? ==> s.tenant != "" && Returned(s.tenant, s.key, s.msisdn, s.state) in log
  }

  ghost predicate OwnWorker(worker: Worker, log: seq<Note>) {
    ColonFree(worker.ev.mno) &&
    (!worker.Deleting? ==>
      worker.sess.key == KeyOfEvent(worker.ev) && worker.sess.msisdn == worker.ev.msisdn && Owned(worker.sess, log))
  }

  ghost predicate OwnStore(store: map<string, Session>, log: seq<Note>) {
    forall k | k in store :: KeyString(store[k].key) == k && ColonFree(store[k].key.mno) && Owned(store[k], log)
  }

  /** Every state delivered was returned earlier by the same tenant for the same
      key and subscriber. */
  ghost predicate Isolated(log: seq<Note>) {
    forall i | 0 <= i < |log| && log[i].Delivered? && log[i].state.Some? ::
      exists j :: 0 <= j < i && log[j] == Returned(log[i].tenant, log[i].key, log[i].msisdn, log[i].state)
  }

  ghost predicate Inv(w: World) {
    && OwnStore(w.store, w.log)
    && (forall id | id in w.workers :: OwnWorker(w.workers[id], w.log))
    && Isolated(w.log)
  }

  // ---------- what can happen at all ----------

  /** Nothing holds a callback up, and nothing keeps one out: a new one can arrive,
      one in flight can take its next step, whatever the answer, or fail, and any
      session can expire. */
  lemma NeverBlocked(w: World, id: int, ev: Event, loadFails: bool, reply: Reply, now: int, key: string)
    ensures Enabled(w, Evict(key))
    ensures id !in w.workers && ColonFree(ev.mno) ==> Enabled(w, Arrive(id, ev, loadFails))
    ensures id in w.workers ==>
              && Enabled(w, Drop(id))
              && (Enabled(w, Dispatch(id)) || Enabled(w, TakeReply(id, reply)) || Enabled(w, Persist(id, now)))
  {
  }

  /** The callback that moves; none does when a session expires. */
  function Mover(m: Move): Option<int> {
    match m
    case Arrive(id, _, _) => Some(id)
    case Dispatch(id) => Some(id)
    case TakeReply(id, _) => Some(id)
    case Persist(id, _) => Some(id)
    case Drop(id) => Some(id)
    case Evict(_) => None
  }

  /** Callbacks interleave freely: a step of one leaves the others where they were,
      with the same steps open to them. */
  lemma OthersStay(w: World, m: Move, n: Move, router: Router)
    requires Mover(m) != Mover(n) || Mover(m).None?
    ensures Enabled(w, n) ==> Enabled(Moved(w, m, router), n)
    ensures forall id: int | Mover(m) != Some(id) ::
              && (id in Moved(w, m, router).workers <==> id in w.workers)
              && (id in w.workers ==> Moved(w, m, router).workers[id] == w.workers[id])
  {
    hide ColonFree, RouteOf, Assigned, Admitted, Settled, NormaliseState, Stamped;
  }

  /** A failure takes a callback away and touches nothing else; an expiry takes one
      session away and touches nothing else. */
  lemma LossesAreLocal(w: World, id: int, key: string, router: Router)
    ensures var r := Moved(w, Drop(id), router); r.store == w.store && r.log == w.log && id !in r.workers
    ensures var r := Moved(w, Evict(key), router);
            && r.workers == w.workers && r.log == w.log && key !in r.store
            && forall k | k != key :: FindString(r.store, k) == FindString(w.store, k)
  {
  }

  // ---------- the invariant is kept ----------

  lemma OwnedLater(s: Session, log: seq<Note>, note: Note)
    requires Owned(s, log)
    ensures Owned(s, log + [note])
  {
  }

  lemma IsolatedSnoc(log: seq<Note>, note: Note)
    requires Isolated(log)
    requires note.Delivered? && note.state.Some? ==> Returned(note.tenant, note.key, note.msisdn, note.state) in log
    ensures Isolated(log + [note])
  {
    var all := log + [note];
    forall i | 0 <= i < |all| && all[i].Delivered? && all[i].state.Some?
      ensures exists j :: 0 <= j < i && all[j] == Returned(all[i].tenant, all[i].key, all[i].msisdn, all[i].state)
    {
      if i < |log| {
        var j :| 0 <= j < i && log[j] == Returned(log[i].tenant, log[i].key, log[i].msisdn, log[i].state);
        assert all[j] == log[j];
      } else {
        var j :| 0 <= j < |log| && log[j] == Returned(note.tenant, note.key, note.msisdn, note.state);
        assert all[j] == log[j];
      }
    }
  }

  /** A longer record keeps what the store and the workers own. */
  lemma InvLater(w: World, note: Note)
    requires Inv(w)
    ensures OwnStore(w.store, w.log + [note])
    ensures forall id | id in w.workers :: OwnWorker(w.workers[id], w.log + [note])
  {
    hide Isolated, KeyString, ColonFree;
    forall s: Session | Owned(s, w.log) ensures Owned(s, w.log + [note]) {
      OwnedLater(s, w.log, note);
    }
  }

  lemma AssignedOwned(sess: Session, target: Tenant, log: seq<Note>)
    requires Owned(sess, log) && target.name != ""
    ensures var a := Assigned(sess, target);
            Owned(a, log) && a.tenant == target.name && a.key == sess.key && a.msisdn == sess.msisdn
  {
  }

  lemma SettledOwned(sess: Session, reply: Reply, log: seq<Note>)
    requires Owned(sess, log) && sess.tenant != "" && Returned(sess.tenant, sess.key, sess.msisdn, reply.state) in log
    ensures var s := Settled(sess, reply);
            Owned(s, log) && s.key == sess.key && s.msisdn == sess.msisdn && s.tenant == sess.tenant
  {
  }

  lemma MoveKeepsInv(w: World, m: Move, router: Router)
    requires Inv(w) && AllNamed(w) && NamedTenants(router) && Enabled(w, m)
    ensures Inv(Moved(w, m, router)) && AllNamed(Moved(w, m, router))
  {
    match m
    case Arrive(id, ev, loadFails) => ArriveKeepsInv(w, id, ev, loadFails, router);
    case Dispatch(id) => DispatchKeepsInv(w, id, router);
    case TakeReply(id, reply) => AnswerKeepsInv(w, id, reply, router);
    case Persist(id, now) => PersistKeepsInv(w, id, now, router);
    case Drop(id) => RemovalKeepsInv(w, m, router);
    case Evict(_) => RemovalKeepsInv(w, m, router);
  }

  /** A callback that waits for a reply, or has one, knows its tenant. */
  ghost predicate AllNamed(w: World) {
    forall id | id in w.workers && (w.workers[id].Waiting? || w.workers[id].Storing?) :: w.workers[id].sess.tenant != ""
  }

  lemma ArriveKeepsInv(w: World, id: int, ev: Event, loadFails: bool, router: Router)
    requires Inv(w) && AllNamed(w) && Enabled(w, Arrive(id, ev, loadFails))
    ensures Inv(Moved(w, Arrive(id, ev, loadFails), router)) && AllNamed(Moved(w, Arrive(id, ev, loadFails), router))
  {
    hide Isolated, KeyString, ColonFree;
    var k := KeyString(KeyOfEvent(ev));
    if k in w.store {
      KeyStringIsInjective(w.store[k].key, KeyOfEvent(ev));
    }
  }

  lemma DispatchKeepsInv(w: World, id: int, router: Router)
    requires Inv(w) && AllNamed(w) && NamedTenants(router) && Enabled(w, Dispatch(id))
    ensures Inv(Moved(w, Dispatch(id), router)) && AllNamed(Moved(w, Dispatch(id), router))
  {
    hide Isolated, OwnStore, RouteOf;
    var ev, sess := w.workers[id].ev, w.workers[id].sess;
    var route := RouteOf(router, ev.shortcode, ev.path);
    if route.Route? {
      var given := Assigned(sess, route.target);
      AssignedOwned(sess, route.target, w.log);
      var note := Delivered(route.target.name, KeyOfEvent(ev), ev.msisdn, given.state);
      InvLater(w, note);
      IsolatedSnoc(w.log, note);
      OwnedLater(given, w.log, note);
    }
  }

  lemma AnswerKeepsInv(w: World, id: int, reply: Reply, router: Router)
    requires Inv(w) && AllNamed(w) && Enabled(w, TakeReply(id, reply))
    ensures Inv(Moved(w, TakeReply(id, reply), router)) && AllNamed(Moved(w, TakeReply(id, reply), router))
  {
    hide Isolated, OwnStore, NormaliseState;
    var ev, sess := w.workers[id].ev, w.workers[id].sess;
    var state := NormaliseState(reply.state);
    var note := Returned(sess.tenant, KeyOfEvent(ev), ev.msisdn, state);
    InvLater(w, note);
    IsolatedSnoc(w.log, note);
    assert note in w.log + [note];
    SettledOwned(sess, reply.(state := state), w.log + [note]);
  }

  lemma PersistKeepsInv(w: World, id: int, now: int, router: Router)
    requires Inv(w) && AllNamed(w) && Enabled(w, Persist(id, now))
    ensures Inv(Moved(w, Persist(id, now), router)) && AllNamed(Moved(w, Persist(id, now), router))
  {
    hide Isolated, KeyString, ColonFree;
  }

  lemma RemovalKeepsInv(w: World, m: Move, router: Router)
    requires Inv(w) && AllNamed(w) && (m.Drop? || m.Evict?)
    ensures Inv(Moved(w, m, router)) && AllNamed(Moved(w, m, router))
  {
    hide Isolated, KeyString, ColonFree;
  }

  // ---------- every run ----------

  /** The worlds of a run: each follows from the one before by some move. */
  ghost predicate IsRun(ws: seq<World>, moves: seq<Move>, router: Router) {
    && |ws| == |moves| + 1 && Init(ws[0])
    && forall i | 0 <= i < |moves| :: Enabled(ws[i], moves[i]) && ws[i + 1] == Moved(ws[i], moves[i], router)
  }

  lemma {:induction false} RunKeepsInv(ws: seq<World>, moves: seq<Move>, router: Router, n: nat)
    requires NamedTenants(router) && IsRun(ws, moves, router) && n < |ws|
    ensures Inv(ws[n]) && AllNamed(ws[n])
  {
    hide Inv, AllNamed, Moved, Enabled, NamedTenants;
    if n == 0 {
      InitInv(ws[0]);
    } else {
      RunKeepsInv(ws, moves, router, n - 1);
      MoveKeepsInv(ws[n - 1], moves[n - 1], router);
    }
  }

  lemma InitInv(w: World)
    requires Init(w)
    ensures Inv(w) && AllNamed(w)
  {
  }

  /** In every run, from every configuration NewRouter accepts, a state that some
      tenant is shown was returned before by that tenant, for that dialogue and
      that subscriber. */
  lemma TenantsAreIsolated(ws: seq<World>, moves: seq<Move>, router: Router, tenants: seq<Tenant>, n: nat)
    requires Accepts(tenants) && BuiltFrom(router, tenants) && IsRun(ws, moves, router) && n < |ws|
    ensures Isolated(ws[n].log)
  {
    hide Accepts, BuiltFrom, IsRun, Isolated, NamedTenants;
    RoutedTenantsAreNamed(router, tenants);
    RunKeepsInv(ws, moves, router, n);
  }

  lemma RoutedTenantsAreNamed(router: Router, tenants: seq<Tenant>)
    requires Accepts(tenants) && BuiltFrom(router, tenants)
    ensures NamedTenants(router)
  {
    hide BuiltFrom, RouteOf;
    forall sc, path | RouteOf(router, sc, path).Route? ensures RouteOf(router, sc, path).target.name != "" {
      RouterIsCorrect(router, tenants, sc, path);
      assert ValidTenant(RouteOf(router, sc, path).target);
    }
  }

  // ---------- the steps are those of a turn ----------

  /** The string-keyed store holds what the key-keyed one does. */
  ghost predicate SameStore(strings: map<string, Session>, store: Store) {
    forall k: Key | ColonFree(k.mno) :: FindString(strings, KeyString(k)) == Find(store, k)
  }

  /** The steps of one callback that is not interrupted: load, route, deliver,
      take the answer, persist. Whatever fails ends it there. */
  function StepsOf(id: int, store: Store, router: Router, cb: Callback): seq<Move> {
    var arrive := Arrive(id, cb.ev, cb.faults.load);
    if Terminal(cb.ev.phase) then [arrive, Ending(id, cb.faults.delete, cb.now)]
    else
      match RouteOf(router, cb.ev.shortcode, cb.ev.path)
      case NoRoute(_) => [arrive, Dispatch(id)]
      case Route(target, path) =>
        match cb.call(target, RequestFor(Given(store, cb, target), cb.ev.(path := path)))
        case NoAnswer => [arrive, Dispatch(id), Drop(id)]
        case Answered(reply) =>
          if !ValidResponse(reply.response) then [arrive, Dispatch(id), Drop(id)]
          else
            var fails := if reply.response.endSession then cb.faults.delete else cb.faults.save;
            [arrive, Dispatch(id), TakeReply(id, reply), Ending(id, fails, cb.now)]
  }

  function Ending(id: int, fails: bool, now: int): Move {
    if fails then Drop(id) else Persist(id, now)
  }

  /** The session that `target` is sent. */
  function Given(store: Store, cb: Callback, target: Tenant): Session {
    Assigned(Admitted(Loaded(store, cb), cb.ev), target)
  }

  /** What a callback puts on record: the state its tenant is shown, and the one that
      a usable reply brings back. */
  function NotesOf(store: Store, router: Router, cb: Callback): seq<Note> {
    var key := KeyOfEvent(cb.ev);
    match AskedOn(store, router, cb)
    case None => []
    case Some(asked) =>
      [Delivered(asked.tenant.name, key, cb.ev.msisdn, asked.request.state)] +
      match UsableReply(cb, asked)
      case None => []
      case Some(reply) => [Returned(asked.tenant.name, key, cb.ev.msisdn, if SendsState(reply) then reply.state else None)]
  }

  /** Moves made one after the other, each of them possible. */
  function AllMoved(w: World, moves: seq<Move>, router: Router): World
    decreases |moves|
  {
    if moves == [] then w else AllMoved(Moved(w, moves[0], router), moves[1..], router)
  }

  ghost predicate AllEnabled(w: World, moves: seq<Move>, router: Router)
    decreases |moves|
  {
    moves == [] || (Enabled(w, moves[0]) && AllEnabled(Moved(w, moves[0], router), moves[1..], router))
  }

  lemma OneMove(w: World, m: Move, rest: seq<Move>, router: Router)
    ensures AllMoved(w, [m] + rest, router) == AllMoved(Moved(w, m, router), rest, router)
    ensures AllEnabled(w, [m] + rest, router) <==> Enabled(w, m) && AllEnabled(Moved(w, m, router), rest, router)
  {
    assert ([m] + rest)[1..] == rest;
  }

  lemma NoMove(w: World, router: Router)
    ensures AllMoved(w, [], router) == w && AllEnabled(w, [], router)
  {
  }

  /** Two, three or four moves, spelled out. */
  lemma FewMoves(w: World, a: Move, b: Move, c: Move, d: Move, router: Router)
    ensures var w1 := Moved(w, a, router);
            var w2 := Moved(w1, b, router);
            var w3 := Moved(w2, c, router);
            && AllMoved(w, [a, b], router) == w2
            && (AllEnabled(w, [a, b], router) <==> Enabled(w, a) && Enabled(w1, b))
            && AllMoved(w, [a, b, c], router) == w3
            && (AllEnabled(w, [a, b, c], router) <==> Enabled(w, a) && Enabled(w1, b) && Enabled(w2, c))
            && AllMoved(w, [a, b, c, d], router) == Moved(w3, d, router)
            && (AllEnabled(w, [a, b, c, d], router) <==>
                Enabled(w, a) && Enabled(w1, b) && Enabled(w2, c) && Enabled(w3, d))
  {
    hide Moved, Enabled, AllMoved, AllEnabled;
    var w1 := Moved(w, a, router);
    var w2 := Moved(w1, b, router);
    var w3 := Moved(w2, c, router);
    assert [a, b] == [a] + ([b] + []);
    assert [a, b, c] == [a] + ([b] + ([c] + []));
    assert [a, b, c, d] == [a] + ([b] + ([c] + ([d] + [])));
    OneMove(w, a, [b] + [], router);
    OneMove(w, a, [b] + ([c] + []), router);
    OneMove(w, a, [b] + ([c] + ([d] + [])), router);
    OneMove(w1, b, [], router);
    OneMove(w1, b, [c] + [], router);
    OneMove(w1, b, [c] + ([d] + []), router);
    OneMove(w2, c, [], router);
    OneMove(w2, c, [d] + [], router);
    OneMove(w3, d, [], router);
    NoMove(w2, router);
    NoMove(w3, router);
    NoMove(Moved(w3, d, router), router);
  }

  /** Run without interruption, the steps of any callback do to the store what
      handling the callback does: a delivered, an ended, a terminal, an unroutable
      and an undelivered one, with whatever store failures. They put on record the
      state that was sent and the one that came back. */
  lemma StepsMakeATurn(w: World, id: int, router: Router, cb: Callback, store: Store)
    requires SameStore(w.store, store) && Filed(store) && id !in w.workers && ColonFree(cb.ev.mno)
    ensures var moves := StepsOf(id, store, router, cb);
            && AllEnabled(w, moves, router)
            && AllMoved(w, moves, router).workers == w.workers
            && SameStore(AllMoved(w, moves, router).store, HandleOn(store, router, cb).0)
            && AllMoved(w, moves, router).log == w.log + NotesOf(store, router, cb)
  {
    hide RouteOf, KeyString, ColonFree, AllMoved, AllEnabled, Moved, Enabled, HandleOn, SameStore, ValidResponse, NotesOf;
    var moves := StepsOf(id, store, router, cb);
    var drop := Drop(id);
    FewMoves(w, moves[0], moves[1], if |moves| > 2 then moves[2] else drop, if |moves| > 3 then moves[3] else drop, router);
    if Terminal(cb.ev.phase) {
      TerminalSteps(w, id, router, cb, store);
    } else {
      UnansweredSteps(w, id, router, cb, store);
      match RouteOf(router, cb.ev.shortcode, cb.ev.path)
      case NoRoute(_) =>
      case Route(target, path) =>
        match cb.call(target, RequestFor(Given(store, cb, target), cb.ev.(path := path)))
        case NoAnswer =>
        case Answered(reply) =>
          if ValidResponse(reply.response) {
            AnsweredSteps(w, id, router, cb, store, target, reply);
          }
    }
  }

  lemma SameKey(key: Key)
    requires ColonFree(key.mno)
    ensures forall k: Key | ColonFree(k.mno) :: KeyString(k) == KeyString(key) <==> k == key
  {
    forall k: Key | ColonFree(k.mno) ensures KeyString(k) == KeyString(key) <==> k == key {
      KeyStringIsInjective(k, key);
    }
  }

  lemma TerminalSteps(w: World, id: int, router: Router, cb: Callback, store: Store)
    requires SameStore(w.store, store) && id !in w.workers && ColonFree(cb.ev.mno) && Terminal(cb.ev.phase)
    ensures var w1 := Moved(w, Arrive(id, cb.ev, cb.faults.load), router);
            var last := Ending(id, cb.faults.delete, cb.now);
            var w2 := Moved(w1, last, router);
            && Enabled(w, Arrive(id, cb.ev, cb.faults.load)) && Enabled(w1, last)
            && w2.workers == w.workers && SameStore(w2.store, HandleOn(store, router, cb).0)
            && w2.log == w.log + NotesOf(store, router, cb)
  {
    hide KeyString, ColonFree, RouteOf, Admitted;
    SameKey(KeyOfEvent(cb.ev));
  }

  predicate Unanswered(store: Store, cb: Callback, route: Route)
    requires route.Route?
  {
    Accepted(cb.call(route.target, RequestFor(Given(store, cb, route.target), cb.ev.(path := route.path)))).None?
  }

  /** A turn that finds no tenant, or gets no usable answer. */
  lemma UnansweredSteps(w: World, id: int, router: Router, cb: Callback, store: Store)
    requires SameStore(w.store, store) && id !in w.workers && ColonFree(cb.ev.mno) && !Terminal(cb.ev.phase)
    ensures var w1 := Moved(w, Arrive(id, cb.ev, cb.faults.load), router);
            var w2 := Moved(w1, Dispatch(id), router);
            var w3 := Moved(w2, Drop(id), router);
            var route := RouteOf(router, cb.ev.shortcode, cb.ev.path);
            && Enabled(w, Arrive(id, cb.ev, cb.faults.load)) && Enabled(w1, Dispatch(id))
            && (route.NoRoute? ==>
              && w2.workers == w.workers && SameStore(w2.store, HandleOn(store, router, cb).0)
              && w2.log == w.log + NotesOf(store, router, cb))
            && (route.Route? ==>
              && Enabled(w2, Drop(id)) && w3.workers == w.workers
              && (Unanswered(store, cb, route) ==>
                SameStore(w3.store, HandleOn(store, router, cb).0) && w3.log == w.log + NotesOf(store, router, cb)))
  {
    hide KeyString, ColonFree, RouteOf, Accepted, Admitted, Assigned, SameStore, NotesOf, Unanswered;
    LoadsAlike(w.store, store, KeyOfEvent(cb.ev));
    NotedWhenUnanswered(router, cb, store);
    assert w.log + [] == w.log;
    UnansweredStore(router, cb, store);
  }

  lemma UnansweredStore(router: Router, cb: Callback, store: Store)
    requires !Terminal(cb.ev.phase)
    ensures var route := RouteOf(router, cb.ev.shortcode, cb.ev.path);
            (route.NoRoute? || Unanswered(store, cb, route)) ==> HandleOn(store, router, cb).0 == store
  {
    hide RouteOf, Accepted, Admitted, Assigned;
  }

  lemma NotedWhenUnanswered(router: Router, cb: Callback, store: Store)
    requires !Terminal(cb.ev.phase)
    ensures var route := RouteOf(router, cb.ev.shortcode, cb.ev.path);
            && (route.NoRoute? ==> NotesOf(store, router, cb) == [])
            && (route.Route? && Unanswered(store, cb, route) ==>
              NotesOf(store, router, cb) ==
              [Delivered(route.target.name, KeyOfEvent(cb.ev), cb.ev.msisdn, Given(store, cb, route.target).state)])
  {
    hide RouteOf, Admitted, Assigned, Fits, NormaliseState, SendsState;
  }

  lemma SameStoreUpdated(strings: map<string, Session>, store: Store, key: Key, s: Session)
    requires SameStore(strings, store) && ColonFree(key.mno)
    ensures SameStore(strings[KeyString(key) := s], store[key := s])
    ensures SameStore(strings - {KeyString(key)}, store - {key})
  {
    hide KeyString, ColonFree;
    SameKey(key);
  }

  /** A turn whose answer is usable. */
  lemma AnsweredSteps(w: World, id: int, router: Router, cb: Callback, store: Store, target: Tenant, reply: Reply)
    requires SameStore(w.store, store) && Filed(store) && id !in w.workers && ColonFree(cb.ev.mno)
    requires !Terminal(cb.ev.phase)
    requires var route := RouteOf(router, cb.ev.shortcode, cb.ev.path);
             && route.Route? && route.target == target
             && cb.call(target, RequestFor(Given(store, cb, target), cb.ev.(path := route.path))) == Answered(reply)
             && ValidResponse(reply.response)
    ensures var w1 := Moved(w, Arrive(id, cb.ev, cb.faults.load), router);
            var w2 := Moved(w1, Dispatch(id), router);
            var w3 := Moved(w2, TakeReply(id, reply), router);
            var last := Ending(id, if reply.response.endSession then cb.faults.delete else cb.faults.save, cb.now);
            var w4 := Moved(w3, last, router);
            && Enabled(w2, TakeReply(id, reply)) && Enabled(w3, last)
            && w4.workers == w.workers && SameStore(w4.store, HandleOn(store, router, cb).0)
            && w4.log == w.log + NotesOf(store, router, cb)
  {
    hide KeyString, ColonFree, RouteOf, NormaliseState, ValidResponse, Settled, Given, SameStore, Moved, Enabled, NotesOf;
    var key := KeyOfEvent(cb.ev);
    var kept := Settled(Given(store, cb, target), reply.(state := NormaliseState(reply.state)));
    GivenKeepsKey(store, cb, target, reply.(state := NormaliseState(reply.state)));
    HandledWhenAnswered(router, cb, store, target, reply);
    NotedWhenAnswered(router, cb, store, target, reply);
    SameStoreUpdated(w.store, store, key, Stamped(kept, cb.now));
    var w2 := Moved(Moved(w, Arrive(id, cb.ev, cb.faults.load), router), Dispatch(id), router);
    var w3 := Moved(w2, TakeReply(id, reply), router);
    AnsweredWorld(w, id, router, cb, store, target, reply);
    EndingMoves(w, w3, id, router, cb.ev, kept, reply.response.endSession,
                if reply.response.endSession then cb.faults.delete else cb.faults.save, cb.now);
  }

  lemma HandledWhenAnswered(router: Router, cb: Callback, store: Store, target: Tenant, reply: Reply)
    requires !Terminal(cb.ev.phase)
    requires var route := RouteOf(router, cb.ev.shortcode, cb.ev.path);
             && route.Route? && route.target == target
             && cb.call(target, RequestFor(Given(store, cb, target), cb.ev.(path := route.path))) == Answered(reply)
             && ValidResponse(reply.response)
    ensures HandleOn(store, router, cb) ==
            Persisted(store, Settled(Given(store, cb, target), reply.(state := NormaliseState(reply.state))), reply.response, cb)
  {
    hide RouteOf, Persisted, Settled, Assigned, Admitted, NormaliseState, ValidResponse;
  }

  lemma NotedWhenAnswered(router: Router, cb: Callback, store: Store, target: Tenant, reply: Reply)
    requires !Terminal(cb.ev.phase)
    requires var route := RouteOf(router, cb.ev.shortcode, cb.ev.path);
             && route.Route? && route.target == target
             && cb.call(target, RequestFor(Given(store, cb, target), cb.ev.(path := route.path))) == Answered(reply)
             && ValidResponse(reply.response)
    ensures NotesOf(store, router, cb) == NotesWith(store, cb, target, reply)
  {
    hide RouteOf, Assigned, Admitted, Fits;
  }

  function NotesWith(store: Store, cb: Callback, target: Tenant, reply: Reply): seq<Note> {
    var key := KeyOfEvent(cb.ev);
    [Delivered(target.name, key, cb.ev.msisdn, Given(store, cb, target).state),
     Returned(target.name, key, cb.ev.msisdn, NormaliseState(reply.state))]
  }

  lemma AnsweredWorld(w: World, id: int, router: Router, cb: Callback, store: Store, target: Tenant, reply: Reply)
    requires SameStore(w.store, store) && id !in w.workers && ColonFree(cb.ev.mno) && !Terminal(cb.ev.phase)
    requires var route := RouteOf(router, cb.ev.shortcode, cb.ev.path); route.Route? && route.target == target
    ensures var w2 := Moved(Moved(w, Arrive(id, cb.ev, cb.faults.load), router), Dispatch(id), router);
            var w3 := Moved(w2, TakeReply(id, reply), router);
            var kept := Settled(Given(store, cb, target), reply.(state := NormaliseState(reply.state)));
            && Enabled(w2, TakeReply(id, reply)) && w3.store == w.store
            && w3.workers == w.workers[id := if reply.response.endSession then Deleting(cb.ev) else Storing(cb.ev, kept)]
            && w3.log == w.log + NotesWith(store, cb, target, reply)
  {
    hide KeyString, ColonFree, RouteOf, NormaliseState, Settled, Assigned;
    LoadsAlike(w.store, store, KeyOfEvent(cb.ev));
    GivenTenant(store, cb, target);
    AppendTwo(w.log, NotesWith(store, cb, target, reply));
  }

  lemma GivenTenant(store: Store, cb: Callback, target: Tenant)
    ensures Given(store, cb, target).tenant == target.name
  {
  }

  lemma LoadsAlike(strings: map<string, Session>, store: Store, key: Key)
    requires SameStore(strings, store) && ColonFree(key.mno)
    ensures FindString(strings, KeyString(key)) == Find(store, key)
  {
  }

  lemma AppendTwo(log: seq<Note>, notes: seq<Note>)
    requires |notes| == 2
    ensures log + notes == log + [notes[0]] + [notes[1]]
  {
  }

  /** The last step stores or deletes, or fails to. */
  lemma EndingMoves(
      w: World, w3: World, id: int, router: Router, ev: Event, kept: Session, ends: bool, fails: bool, now: int)
    requires id !in w.workers && w3.store == w.store
    requires w3.workers == w.workers[id := if ends then Deleting(ev) else Storing(ev, kept)]
    ensures var w4 := Moved(w3, Ending(id, fails, now), router);
            && Enabled(w3, Ending(id, fails, now)) && w4.workers == w.workers && w4.log == w3.log
            && w4.store == if fails then w.store
                           else if ends then w.store - {KeyString(KeyOfEvent(ev))}
                           else w.store[KeyString(kept.key) := Stamped(kept, now)]
  {
    hide KeyString;
  }

  lemma GivenKeepsKey(store: Store, cb: Callback, target: Tenant, reply: Reply)
    requires Filed(store)
    ensures Given(store, cb, target).key == KeyOfEvent(cb.ev)
    ensures Settled(Given(store, cb, target), reply).key == KeyOfEvent(cb.ev)
  {
  }
}
