/** One turn at the gateway: load the session, route, deliver, persist. */
module Gateway {
  import opened Text
  import opened Encoding
  import opened Canonical
  import opened Routing
  import opened Sessions
  import opened Webhook

  function KeyOfEvent(ev: Event): Key {
    Key(ev.mno, ev.sessionId)
  }

  function NewSession(ev: Event): Session {
    Session(KeyOfEvent(ev), "", ev.msisdn, ev.shortcode, 0, None, None, None)
  }

  /** The session a turn starts from: the stored one, unless another subscriber
      turned up with its id. */
  function Admitted(found: Option<Session>, ev: Event): Session {
    if found.Some? && found.value.msisdn == ev.msisdn then found.value else NewSession(ev)
  }

  /** The session as delivered to `target`: a tenant it comes to afresh sees
      neither state nor turns of another. */
  function Assigned(sess: Session, target: Tenant): Session {
    var clean := if sess.tenant != "" && sess.tenant != target.name then sess.(state := None, turn := 0) else sess;
    clean.(tenant := target.name, turn := clean.turn + 1)
  }

  function RequestFor(sess: Session, routed: Event): Request {
    Request(VERSION, routed, sess.turn, sess.state)
  }

  /** The session after the tenant's reply: cleared, replaced or kept. */
  function Settled(sess: Session, reply: Reply): Session {
    if reply.clearState then sess.(state := None)
    else if reply.state.Some? then sess.(state := reply.state)
    else sess
  }

  /** What goes wrong around one turn: store failures, as a shared store has. */
  datatype Faults = Faults(load: bool, save: bool, delete: bool)

  const NO_FAULTS := Faults(false, false, false)

  datatype Handled = Handled(response: Response) | Unroutable | Undelivered | Unsaved

  /** One callback with everything the world contributes to it. */
  datatype Callback = Callback(ev: Event, call: (Tenant, Request) -> Answer, faults: Faults, now: int)

  type Store = map<Key, Session>

  function Find(store: Store, key: Key): Option<Session> {
    if key in store then Some(store[key]) else None
  }

  function Loaded(store: Store, cb: Callback): Option<Session> {
    if cb.faults.load then None else Find(store, KeyOfEvent(cb.ev))
  }

  function Removed(store: Store, key: Key, faults: Faults): Store {
    if faults.delete then store else store - {key}
  }

  /** Persisting a settled session, or dropping an ended one. */
  function Persisted(store: Store, sess: Session, response: Response, cb: Callback): (Store, Handled) {
    if response.endSession then (Removed(store, KeyOfEvent(cb.ev), cb.faults), Handled(response))
    else if cb.faults.save then (store, Unsaved)
    else (store[sess.key := Stamped(sess, cb.now)], Handled(response))
  }

  /** What a turn does to the live sessions, and what it answers. */
  function HandleOn(store: Store, router: Router, cb: Callback): (Store, Handled) {
    var ev := cb.ev;
    if Terminal(ev.phase) then (Removed(store, KeyOfEvent(ev), cb.faults), Handled(Response("", false)))
    else
      match RouteOf(router, ev.shortcode, ev.path)
      case NoRoute(_) => (store, Unroutable)
      case Route(target, path) =>
        var sess := Assigned(Admitted(Loaded(store, cb), ev), target);
        match Accepted(cb.call(target, RequestFor(sess, ev.(path := path))))
        case None => (store, Undelivered)
        case Some(reply) => Persisted(store, Settled(sess, reply), reply.response, cb)
  }

  /** What a turn asks of which tenant. */
  datatype Asked = Asked(tenant: Tenant, request: Request)

  function AskedOn(store: Store, router: Router, cb: Callback): Option<Asked> {
    if Terminal(cb.ev.phase) then None
    else
      match RouteOf(router, cb.ev.shortcode, cb.ev.path)
      case NoRoute(_) => None
      case Route(target, path) =>
        Some(Asked(target, RequestFor(Assigned(Admitted(Loaded(store, cb), cb.ev), target), cb.ev.(path := path))))
  }

  /** A turn whose dialogue another tenant served before. */
  predicate HandedOver(store: Store, router: Router, cb: Callback) {
    var found, asked := Loaded(store, cb), AskedOn(store, router, cb);
    && asked.Some? && found.Some? && found.value.msisdn == cb.ev.msisdn
    && found.value.tenant != "" && found.value.tenant != asked.value.tenant.name
  }

  class Inbound {
    const router: Router
    /** The live sessions of the store: what Load answers now. */
    var sessions: Store

    constructor (router: Router)
      ensures this.router == router && sessions == map[]
    {
      this.router := router;
      sessions := map[];
    }

    method Handle(cb: Callback) returns (r: Handled)
      modifies this
      ensures (sessions, r) == HandleOn(old(sessions), router, cb)
    {
      hide RouteOf, NormaliseState, ValidResponse, Stamped, Terminal;
      var ev := cb.ev;
      var key := KeyOfEvent(ev);
      var sess;
      if cb.faults.load || key !in sessions {
        sess := NewSession(ev);
      } else {
        sess := sessions[key];
        if sess.msisdn != ev.msisdn {
          sess := NewSession(ev);
        }
      }
      if Terminal(ev.phase) {
        if !cb.faults.delete {
          sessions := sessions - {key};
        }
        return Handled(Response("", false));
      }
      var route := RouteEvent(router, ev);
      if route.NoRoute? {
        return Unroutable;
      }
      if sess.tenant != "" && sess.tenant != route.target.name {
        sess := sess.(state := None, turn := 0);
      }
      sess := sess.(tenant := route.target.name);
      sess := sess.(turn := sess.turn + 1);
      var reply := Deliver(route.target, Request("", ev.(path := route.path), sess.turn, sess.state), cb.call);
      if reply.None? {
        return Undelivered;
      }
      if reply.value.clearState {
        sess := sess.(state := None);
      } else if reply.value.state.Some? {
        sess := sess.(state := reply.value.state);
      }
      if reply.value.response.endSession {
        if !cb.faults.delete {
          sessions := sessions - {key};
        }
        return Handled(reply.value.response);
      }
      if cb.faults.save {
        return Unsaved;
      }
      sessions := sessions[sess.key := Stamped(sess, cb.now)];
      return Handled(reply.value.response);
    }
  }

  // ---------- the memory store keeps the contract ----------

  /** At time `now` the entries of the memory store answer as `store`. */
  ghost predicate Shows(items: map<string, Item>, now: int, store: Store) {
    forall k: Key | ColonFree(k.mno) && ValidKey(k) ::
      Judge(k, Entry(items, KeyString(k)), now) == if k in store then Found(store[k]) else NotFound
  }

  /** What Save, reading the clock later, and Delete do to the memory store's entries
      is what persisting and removing do to the live sessions, and a sweep does
      nothing to them. */
  lemma MemoryKeepsContract(items: map<string, Item>, at: int, store: Store, s: Session, now: int, ttl: int)
    requires Shows(items, at, store) && at <= now && ttl > 0 && ColonFree(s.key.mno) && ValidKey(s.key)
    ensures Shows(items[KeyString(s.key) := Item(Stamped(s, now), now + ttl)], at, store[s.key := Stamped(s, now)])
    ensures Shows(items - {KeyString(s.key)}, at, store - {s.key})
    ensures Shows(Live(items, at), at, store)
  {
    hide KeyString, ColonFree;
    forall k: Key | ColonFree(k.mno) ensures KeyString(k) == KeyString(s.key) <==> k == s.key {
      KeyStringIsInjective(k, s.key);
    }
  }

  /** As time passes, sessions only disappear: expiry is a removal of keys. */
  lemma TimeOnlyRemoves(items: map<string, Item>, now: int, later: int, store: Store)
    requires Shows(items, now, store) && now <= later
    ensures Shows(items, later, map k | k in store && KeyString(k) in items && later < items[KeyString(k)].expiresAt :: store[k])
  {
    hide KeyString, ColonFree;
  }

  // ---------- one turn ----------

  /** Every stored session is filed under its own key. */
  ghost predicate Filed(store: Store) {
    forall k | k in store :: store[k].key == k
  }

  lemma HandleKeepsFiled(store: Store, router: Router, cb: Callback)
    requires Filed(store)
    ensures Filed(HandleOn(store, router, cb).0)
  {
    hide RouteOf, Accepted;
  }

  /** A turn touches no other dialogue. */
  lemma HandleTouchesOneKey(store: Store, router: Router, cb: Callback, other: Key)
    requires Filed(store) && other != KeyOfEvent(cb.ev)
    ensures Find(HandleOn(store, router, cb).0, other) == Find(store, other)
  {
    hide RouteOf, Accepted;
  }

  /** A turn that fails in routing, delivery or save leaves the store as it was. */
  lemma FailedTurnChangesNothing(store: Store, router: Router, cb: Callback)
    requires !HandleOn(store, router, cb).1.Handled?
    ensures HandleOn(store, router, cb).0 == store
  {
    hide RouteOf, Accepted;
  }

  /** An ended or cancelled dialogue leaves no session, deletes working. */
  lemma EndedTurnLeavesNothing(store: Store, router: Router, cb: Callback)
    requires !cb.faults.delete
    requires var r := HandleOn(store, router, cb).1;
             Terminal(cb.ev.phase) || (r.Handled? && r.response.endSession)
    ensures KeyOfEvent(cb.ev) !in HandleOn(store, router, cb).0
  {
    hide RouteOf, Accepted;
  }

  /** A tenant that did not answer the turn before, whether because the dialogue
      is new, was handed over or changed subscriber, is sent turn 1 and no state. */
  lemma NewcomerStartsClean(found: Option<Session>, ev: Event, target: Tenant)
    requires found.None? || found.value.msisdn != ev.msisdn
             || (found.value.tenant != target.name && found.value.tenant != "")
    ensures var request := RequestFor(Assigned(Admitted(found, ev), target), ev);
            request.turn == 1 && request.state.None?
  {
  }

  // ---------- what a turn asks, answers and stores ----------

  /** The subscriber's own session is there to be read. */
  predicate Resumes(store: Store, cb: Callback) {
    var key := KeyOfEvent(cb.ev);
    !cb.faults.load && key in store && store[key].msisdn == cb.ev.msisdn
  }

  /** It was this tenant's, or nobody's yet. */
  predicate Continues(store: Store, cb: Callback, target: Tenant) {
    Resumes(store, cb) && store[KeyOfEvent(cb.ev)].tenant in {"", target.name}
  }

  /** The tenant is asked in protocol version 1 about the event, its own prefix taken
      off the path; in the dialogue it continues it is sent the next turn and the
      stored state, and else turn 1 and none. */
  lemma AskedIs(store: Store, router: Router, cb: Callback)
    requires AskedOn(store, router, cb).Some?
    ensures var target, request := AskedOn(store, router, cb).value.tenant, AskedOn(store, router, cb).value.request;
            && request.version == "1"
            && cb.ev.path == target.prefix + request.event.path && request.event == cb.ev.(path := request.event.path)
            && if Continues(store, cb, target)
               then request.turn == store[KeyOfEvent(cb.ev)].turn + 1 && request.state == store[KeyOfEvent(cb.ev)].state
               else request.turn == 1 && request.state == None
  {
    hide RouteOf;
    RouteStartsPath(router, cb.ev.shortcode, cb.ev.path);
  }

  lemma RouteStartsPath(router: Router, shortcode: string, path: seq<string>)
    ensures match RouteOf(router, shortcode, path)
            case NoRoute(_) => true
            case Route(target, routed) => path == target.prefix + routed
  {
    var group := if shortcode in router.byShortcode then router.byShortcode[shortcode] else [];
    MatchStartsPath(group, path);
  }

  lemma {:induction false} MatchStartsPath(group: seq<Tenant>, path: seq<string>)
    ensures FirstMatch(group, path).Some? ==> FirstMatch(group, path).value.prefix <= path
    decreases |group|
  {
    if group != [] && !(group[0].prefix <= path) {
      MatchStartsPath(group[1..], path);
    }
  }

  /** The reply of the tenant that is asked, if it is usable: there is one, and its
      screen fits. */
  function UsableReply(cb: Callback, asked: Asked): Option<Reply> {
    match cb.call(asked.tenant, asked.request)
    case NoAnswer => None
    case Answered(reply) => if Fits(reply.response.body) then Some(reply) else None
  }

  /** What a turn answers: nothing to an ended dialogue, the tenant's own screen when
      it is usable and, unless it ends the dialogue, could be saved, and else why
      not. */
  lemma TurnAnswers(store: Store, router: Router, cb: Callback)
    ensures var r, asked := HandleOn(store, router, cb).1, AskedOn(store, router, cb);
            if cb.ev.phase == Cancel || cb.ev.phase == Timeout then r == Handled(Response("", false))
            else if asked.None? then r == Unroutable
            else
              match UsableReply(cb, asked.value)
              case None => r == Undelivered
              case Some(reply) =>
                r == if !reply.response.endSession && cb.faults.save then Unsaved else Handled(reply.response)
  {
    hide RouteOf, NormaliseState, Fits, Settled, Assigned, Admitted;
  }

  // ---------- turn accounting over sequential runs ----------

  /** What one callback of a dialogue did to its session: saved a screen, perhaps
      on a fresh session because the stored one could not be read; dropped the
      session; or nothing, also when dropping it failed. */
  datatype Mark = Saved(tenant: string, msisdn: string, anew: bool) | Closed | Nothing

  function MarkOf(store: Store, router: Router, cb: Callback): Mark {
    var dropped := if cb.faults.delete then Nothing else Closed;
    if Terminal(cb.ev.phase) then dropped
    else
      match HandleOn(store, router, cb).1
      case Handled(response) =>
        if response.endSession then dropped
        else
          match RouteOf(router, cb.ev.shortcode, cb.ev.path) {
            case Route(target, _) => Saved(target.name, cb.ev.msisdn, cb.faults.load)
            case NoRoute(_) => Nothing
          }
      case _ => Nothing
  }

  /** Callbacks handled one after the other. */
  function After(cbs: seq<Callback>, router: Router): Store {
    if cbs == [] then map[] else HandleOn(After(cbs[..|cbs| - 1], router), router, cbs[|cbs| - 1]).0
  }

  /** The marks that the callbacks of dialogue `key` leave, in order. */
  function Marks(cbs: seq<Callback>, router: Router, key: Key): seq<Mark> {
    if cbs == [] then []
    else
      var n := |cbs| - 1;
      var marks := Marks(cbs[..n], router, key);
      if KeyOfEvent(cbs[n].ev) != key then marks else marks + [MarkOf(After(cbs[..n], router), router, cbs[n])]
  }

  /** Who saved the dialogue's last screen, if it is still open. */
  function Owner(marks: seq<Mark>): Mark {
    if marks == [] then Closed
    else if marks[|marks| - 1].Nothing? then Owner(marks[..|marks| - 1])
    else marks[|marks| - 1]
  }

  predicate SameOwner(a: Mark, b: Mark) {
    a.Saved? && b.Saved? && a.tenant == b.tenant && a.msisdn == b.msisdn
  }

  /** Screens that the owner served and the gateway saved, since the dialogue
      started afresh or was handed over. */
  function Streak(marks: seq<Mark>): nat {
    if marks == [] then 0
    else
      var n := |marks| - 1;
      match marks[n]
      case Nothing => Streak(marks[..n])
      case Closed => 0
      case Saved(_, _, anew) => 1 + if !anew && SameOwner(Owner(marks[..n]), marks[n]) then Streak(marks[..n]) else 0
  }

  /** Stored sessions account for exactly the screens since the last fresh start. */
  ghost predicate Accounts(found: Option<Session>, marks: seq<Mark>) {
    match found
    case None => Owner(marks) == Closed
    case Some(s) =>
      && Owner(marks).Saved? && Owner(marks).tenant == s.tenant != "" && Owner(marks).msisdn == s.msisdn
      && s.turn == Streak(marks)
  }

  ghost predicate NamedTenants(router: Router) {
    forall sc, path :: RouteOf(router, sc, path).Route? ==> RouteOf(router, sc, path).target.name != ""
  }

  /** Over every sequential run, whatever loads, saves and deletes fail. */
  lemma {:induction false} TurnsCountSavedScreens(cbs: seq<Callback>, router: Router, key: Key)
    requires NamedTenants(router)
    ensures Filed(After(cbs, router))
    ensures Accounts(Find(After(cbs, router), key), Marks(cbs, router, key))
  {
    hide HandleOn, MarkOf, Streak, Owner, NamedTenants;
    if cbs == [] {
      NothingAccounted();
    } else {
      var n := |cbs| - 1;
      var store := After(cbs[..n], router);
      TurnsCountSavedScreens(cbs[..n], router, key);
      HandleKeepsFiled(store, router, cbs[n]);
      if KeyOfEvent(cbs[n].ev) == key {
        TurnAccounts(store, router, cbs[n], Marks(cbs[..n], router, key));
      } else {
        HandleTouchesOneKey(store, router, cbs[n], key);
      }
    }
  }

  lemma NothingAccounted()
    ensures Accounts(None, [])
  {
  }

  lemma TurnAccounts(store: Store, router: Router, cb: Callback, marks: seq<Mark>)
    requires Filed(store) && NamedTenants(router)
    requires Accounts(Find(store, KeyOfEvent(cb.ev)), marks)
    ensures Accounts(Find(HandleOn(store, router, cb).0, KeyOfEvent(cb.ev)), marks + [MarkOf(store, router, cb)])
  {
    hide RouteOf, Accepted;
    var mark := MarkOf(store, router, cb);
    assert (marks + [mark])[..|marks|] == marks;
  }

  // ---------- a dialogue between two of its callbacks ----------

  lemma {:induction false} RunsKeepFiled(cbs: seq<Callback>, router: Router)
    ensures Filed(After(cbs, router))
  {
    hide HandleOn;
    if cbs != [] {
      var n := |cbs| - 1;
      RunsKeepFiled(cbs[..n], router);
      HandleKeepsFiled(After(cbs[..n], router), router, cbs[n]);
    }
  }

  /** Callbacks of other dialogues leave a session as it was. */
  lemma {:induction false} SessionWaits(cbs: seq<Callback>, router: Router, key: Key, i: nat, j: nat)
    requires i <= j <= |cbs| && forall k | i <= k < j :: KeyOfEvent(cbs[k].ev) != key
    ensures Find(After(cbs[..j], router), key) == Find(After(cbs[..i], router), key)
  {
    hide HandleOn;
    if i < j {
      SessionWaits(cbs, router, key, i, j - 1);
      assert cbs[..j][..j - 1] == cbs[..j - 1];
      RunsKeepFiled(cbs[..j - 1], router);
      HandleTouchesOneKey(After(cbs[..j - 1], router), router, cbs[j - 1], key);
    }
  }

  /** A saved turn leaves the session of the tenant that was asked. */
  lemma SavedIsStored(store: Store, router: Router, cb: Callback)
    requires Filed(store) && MarkOf(store, router, cb).Saved?
    ensures var asked, left := AskedOn(store, router, cb), Find(HandleOn(store, router, cb).0, KeyOfEvent(cb.ev));
            asked.Some? && left.Some? && left.value.tenant == asked.value.tenant.name
  {
    hide RouteOf, Accepted;
  }

  // ---------- what a saved turn stores ----------

  /** A reply sends a state: there is one, and it is neither empty nor a null. */
  predicate SendsState(reply: Reply) {
    reply.state.Some? && reply.state.value != "" && TrimSpace(reply.state.value) != "null"
  }

  /** What a saved turn stores: the reply clears the state, replaces it, or leaves it
      as the tenant was sent it; the turn is the one sent; and the session is the
      same one since it began. */
  lemma SavedSession(store: Store, router: Router, cb: Callback)
    requires Filed(store) && MarkOf(store, router, cb).Saved?
    ensures AskedOn(store, router, cb).Some? && UsableReply(cb, AskedOn(store, router, cb).value).Some?
    ensures var key, before := KeyOfEvent(cb.ev), Resumes(store, cb);
            var asked := AskedOn(store, router, cb).value;
            var reply := UsableReply(cb, asked).value;
            Find(HandleOn(store, router, cb).0, key) == Some(Session(
              key, asked.tenant.name, cb.ev.msisdn,
              if before then store[key].shortcode else cb.ev.shortcode,
              asked.request.turn,
              if reply.clearState then None else if SendsState(reply) then reply.state else asked.request.state,
              if before && store[key].createdAt.Some? then store[key].createdAt else Some(cb.now),
              Some(cb.now)))
  {
    hide RouteOf, Fits, TrimSpace;
  }

  /** The state a tenant leaves is the state it is sent: after a saved turn, whatever
      other dialogues do, the same tenant's next turn of the dialogue carries what
      its last reply cleared, replaced or left. */
  lemma StateTravels(cbs: seq<Callback>, router: Router, i: nat, j: nat)
    requires i < j < |cbs| && KeyOfEvent(cbs[i].ev) == KeyOfEvent(cbs[j].ev) && cbs[i].ev.msisdn == cbs[j].ev.msisdn
    requires forall k | i < k < j :: KeyOfEvent(cbs[k].ev) != KeyOfEvent(cbs[j].ev)
    requires MarkOf(After(cbs[..i], router), router, cbs[i]).Saved? && !cbs[j].faults.load
    requires AskedOn(After(cbs[..i], router), router, cbs[i]).Some? && AskedOn(After(cbs[..j], router), router, cbs[j]).Some?
    requires AskedOn(After(cbs[..i], router), router, cbs[i]).value.tenant
             == AskedOn(After(cbs[..j], router), router, cbs[j]).value.tenant
    ensures var first, second := AskedOn(After(cbs[..i], router), router, cbs[i]).value,
                                 AskedOn(After(cbs[..j], router), router, cbs[j]).value;
            var reply := UsableReply(cbs[i], first);
            && reply.Some? && second.request.turn == first.request.turn + 1
            && (reply.value.clearState ==> second.request.state == None)
            && (!reply.value.clearState && SendsState(reply.value) ==> second.request.state == reply.value.state)
            && (!reply.value.clearState && !SendsState(reply.value) ==> second.request.state == first.request.state)
  {
    hide RouteOf, HandleOn, AskedOn, MarkOf, UsableReply, SendsState;
    var key := KeyOfEvent(cbs[j].ev);
    RunsKeepFiled(cbs[..i], router);
    SavedSession(After(cbs[..i], router), router, cbs[i]);
    assert cbs[..i + 1][..i] == cbs[..i];
    SessionWaits(cbs, router, key, i + 1, j);
    AskedIs(After(cbs[..j], router), router, cbs[j]);
  }

  // ---------- failed turns can be erased ----------

  function WithoutFailures(cbs: seq<Callback>, router: Router): seq<Callback> {
    if cbs == [] then []
    else
      var n := |cbs| - 1;
      var rest := WithoutFailures(cbs[..n], router);
      if HandleOn(After(cbs[..n], router), router, cbs[n]).1.Handled? then rest + [cbs[n]] else rest
  }

  /** A run leaves the store that the run without its failed turns leaves. */
  lemma {:induction false} FailuresAreErasable(cbs: seq<Callback>, router: Router)
    ensures After(WithoutFailures(cbs, router), router) == After(cbs, router)
  {
    hide HandleOn;
    if cbs != [] {
      var n := |cbs| - 1;
      var rest := WithoutFailures(cbs[..n], router);
      FailuresAreErasable(cbs[..n], router);
      if HandleOn(After(cbs[..n], router), router, cbs[n]).1.Handled? {
        assert (rest + [cbs[n]])[..|rest|] == rest;
      } else {
        FailedTurnChangesNothing(After(cbs[..n], router), router, cbs[n]);
      }
    }
  }
}
