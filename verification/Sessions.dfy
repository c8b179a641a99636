/** Session records, their keys, and the in-process store with idle expiry. */
module Sessions {
  import opened Canonical

  type Blob = string

  datatype Key = Key(mno: string, sessionId: string)

  /** The storage key. */
  function KeyString(k: Key): string {
    k.mno + ":" + k.sessionId
  }

  predicate ValidKey(k: Key) {
    k.mno != "" && k.sessionId != ""
  }

  predicate ColonFree(s: string) {
    ':' !in s
  }

  /** Names of networks carry no colon, so the storage key tells keys apart. */
  lemma KeyStringIsInjective(a: Key, b: Key)
    requires ColonFree(a.mno) && ColonFree(b.mno)
    ensures KeyString(a) == KeyString(b) <==> a == b
  {
    if KeyString(a) == KeyString(b) {
      var s := KeyString(a);
      assert s[|a.mno|] == ':' && s[|b.mno|] == ':';
      assert forall i | 0 <= i < |a.mno| :: s[i] == a.mno[i];
      assert forall i | 0 <= i < |b.mno| :: s[i] == b.mno[i];
      assert |a.mno| == |b.mno|;
      assert a.mno == s[..|a.mno|] == b.mno;
      assert a.sessionId == s[|a.mno| + 1..] == b.sessionId;
    }
  }

  ghost predicate Collide(a: Key, b: Key) {
    ValidKey(a) && ValidKey(b) && a != b && KeyString(a) == KeyString(b)
  }

  /** Exactly when some sessions of two networks share a storage key: one name,
      with its colon, starts the other. */
  lemma KeyStringCollides(m: string, n: string)
    ensures (exists s, t :: Collide(Key(m, s), Key(n, t))) <==>
            m != "" && n != "" && (m + ":" <= n || n + ":" <= m)
  {
    if exists s, t :: Collide(Key(m, s), Key(n, t)) {
      var s, t :| Collide(Key(m, s), Key(n, t));
      CollidingNames(m, s, n, t);
    }
    if m != "" && m + ":" <= n {
      var s, t := NamesCollide(m, n);
    }
    if n != "" && n + ":" <= m {
      var s, t := NamesCollide(n, m);
      assert Collide(Key(m, t), Key(n, s));
    }
  }

  lemma CollidingNames(m: string, s: string, n: string, t: string)
    requires m + ":" + s == n + ":" + t && (m != n || s != t)
    ensures m + ":" <= n || n + ":" <= m
  {
    var all := m + ":" + s;
    assert all[..|m|] == m && all[|m|] == ':' && all[|m| + 1..] == s;
    assert all[..|n|] == n && all[|n|] == ':' && all[|n| + 1..] == t;
    if |m| < |n| {
      assert m + ":" == all[..|m| + 1] <= all[..|n|];
    } else if |n| < |m| {
      assert n + ":" == all[..|n| + 1] <= all[..|m|];
    }
  }

  lemma NamesCollide(m: string, n: string) returns (s: string, t: string)
    requires m != "" && m + ":" <= n
    ensures Collide(Key(m, s), Key(n, t))
  {
    t := "1";
    s := n[|m| + 1..] + ":" + t;
    assert n == m + ":" + n[|m| + 1..];
    assert m + ":" + s == n + ":" + t;
  }

  /** The times are None until the first Save stamps them. */
  datatype Session = Session(
    key: Key, tenant: string, msisdn: string, shortcode: string, turn: nat, state: Option<Blob>,
    createdAt: Option<int>, updatedAt: Option<int>)

  datatype Item = Item(session: Session, expiresAt: int)

  datatype LoadResult = BadKey | NotFound | Found(session: Session)

  function Stamped(s: Session, now: int): Session {
    s.(updatedAt := Some(now), createdAt := if s.createdAt.None? then Some(now) else s.createdAt)
  }

  /** What Load answers for an entry looked up earlier and judged at `now`. */
  function Judge(k: Key, item: Option<Item>, now: int): LoadResult {
    if !ValidKey(k) then BadKey
    else if item.None? || !(now < item.value.expiresAt) then NotFound
    else Found(item.value.session)
  }

  function Entry<K>(items: map<K, Item>, k: K): Option<Item> {
    if k in items then Some(items[k]) else None
  }

  function Live(items: map<string, Item>, now: int): map<string, Item> {
    map k | k in items && now < items[k].expiresAt :: items[k]
  }

  class Memory {
    const ttl: int
    var items: map<string, Item>

    constructor (ttl: int)
      ensures this.ttl == ttl && items == map[]
    {
      this.ttl := ttl;
      items := map[];
    }

    method Load(key: Key, now: int) returns (r: LoadResult)
      ensures r == Judge(key, Entry(items, KeyString(key)), now)
      ensures r == BadKey <==> key.mno == "" || key.sessionId == ""
      ensures r.Found? ==> KeyString(key) in items && r.session == items[KeyString(key)].session
    {
      if !ValidKey(key) {
        return BadKey;
      }
      var k := KeyString(key);
      if k !in items || !(now < items[k].expiresAt) {
        return NotFound;
      }
      return Found(items[k].session);
    }

    method Save(s: Session, now: int) returns (ok: bool)
      modifies this
      ensures ok <==> s.key.mno != "" && s.key.sessionId != ""
      ensures items == if ok then old(items)[KeyString(s.key) := Item(Stamped(s, now), now + ttl)] else old(items)
    {
      if !ValidKey(s.key) {
        return false;
      }
      var stamped := s.(updatedAt := Some(now));
      if stamped.createdAt.None? {
        stamped := stamped.(createdAt := Some(now));
      }
      items := items[KeyString(s.key) := Item(stamped, now + ttl)];
      return true;
    }

    method Delete(key: Key)
      modifies this
      ensures items == old(items) - {KeyString(key)}
    {
      items := items - {KeyString(key)};
    }

    method EvictExpired(now: int)
      modifies this
      ensures items == Live(old(items), now)
    {
      var todo := items.Keys;
      while todo != {}
        invariant todo <= items.Keys <= old(items).Keys
        invariant forall k | k in items :: items[k] == old(items)[k]
        invariant forall k | k in old(items) && k !in todo :: k in items <==> now < old(items)[k].expiresAt
        decreases todo
      {
        var k :| k in todo;
        if !(now < items[k].expiresAt) {
          items := items - {k};
        }
        todo := todo - {k};
      }
    }
  }

  // ---------- every interleaving of store operations ----------

  /** One operation at the moment it holds the lock. Save and the sweeper read
      the clock before taking the lock; Load judges expiry after releasing it. */
  datatype Op =
    | OpSave(session: Session, readAt: int)
    | OpDelete(key: Key)
    | OpEvict(readAt: int)
    | OpLoad(key: Key, judgedAt: int)

  datatype Timed = Timed(at: int, op: Op)

  function KeyOf(op: Op): Option<Key> {
    match op
    case OpSave(s, _) => Some(s.key)
    case OpDelete(k) => Some(k)
    case OpEvict(_) => None
    case OpLoad(k, _) => Some(k)
  }

  /** The clock does not go back, and network names are colon-free. */
  ghost predicate ValidHistory(h: seq<Timed>) {
    && (forall i, j | 0 <= i < j < |h| :: h[i].at <= h[j].at)
    && forall e | e in h :: ClockInOrder(e) && (KeyOf(e.op).Some? ==> ColonFree(KeyOf(e.op).value.mno))
  }

  predicate ClockInOrder(e: Timed) {
    match e.op
    case OpSave(_, readAt) => readAt <= e.at
    case OpDelete(_) => true
    case OpEvict(readAt) => readAt <= e.at
    case OpLoad(_, judgedAt) => e.at <= judgedAt
  }

  /** The store after a history, and the answers its loads gave. */
  datatype Outcome<K> = Outcome(items: map<K, Item>, answers: seq<LoadResult>)

  function Apply(o: Outcome<string>, op: Op, ttl: int): Outcome<string> {
    match op
    case OpSave(s, readAt) =>
      if ValidKey(s.key) then o.(items := o.items[KeyString(s.key) := Item(Stamped(s, readAt), readAt + ttl)]) else o
    case OpDelete(k) => o.(items := o.items - {KeyString(k)})
    case OpEvict(readAt) => o.(items := Live(o.items, readAt))
    case OpLoad(k, judgedAt) => o.(answers := o.answers + [Judge(k, Entry(o.items, KeyString(k)), judgedAt)])
  }

  function Run(h: seq<Timed>, ttl: int): Outcome<string> {
    if h == [] then Outcome(map[], []) else Apply(Run(h[..|h| - 1], ttl), h[|h| - 1].op, ttl)
  }

  /** The simple store: keys, not strings, and nothing is ever evicted. */
  function SimpleApply(o: Outcome<Key>, op: Op, ttl: int): Outcome<Key> {
    match op
    case OpSave(s, readAt) =>
      if ValidKey(s.key) then o.(items := o.items[s.key := Item(Stamped(s, readAt), readAt + ttl)]) else o
    case OpDelete(k) => o.(items := o.items - {k})
    case OpEvict(_) => o
    case OpLoad(k, judgedAt) => o.(answers := o.answers + [Judge(k, Entry(o.items, k), judgedAt)])
  }

  function SimpleRun(h: seq<Timed>, ttl: int): Outcome<Key> {
    if h == [] then Outcome(map[], []) else SimpleApply(SimpleRun(h[..|h| - 1], ttl), h[|h| - 1].op, ttl)
  }

  /** The real store holds the simple store's entries, less some that have
      expired by `now`. */
  ghost predicate Agrees(items: map<string, Item>, simple: map<Key, Item>, now: int) {
    forall k: Key | ColonFree(k.mno) ::
      Entry(items, KeyString(k)) == Entry(simple, k)
      || (Entry(items, KeyString(k)).None? && k in simple && simple[k].expiresAt <= now)
  }

  lemma AgreesLater(items: map<string, Item>, simple: map<Key, Item>, now: int, later: int)
    requires Agrees(items, simple, now) && now <= later
    ensures Agrees(items, simple, later)
  {
  }

  lemma ApplyAgrees(o: Outcome<string>, s: Outcome<Key>, e: Timed, ttl: int)
    requires Agrees(o.items, s.items, e.at) && o.answers == s.answers
    requires ClockInOrder(e) && (KeyOf(e.op).Some? ==> ColonFree(KeyOf(e.op).value.mno))
    ensures Agrees(Apply(o, e.op, ttl).items, SimpleApply(s, e.op, ttl).items, e.at)
    ensures Apply(o, e.op, ttl).answers == SimpleApply(s, e.op, ttl).answers
  {
    hide KeyString, ColonFree;
    if KeyOf(e.op).Some? {
      forall k: Key | ColonFree(k.mno) ensures KeyString(k) == KeyString(KeyOf(e.op).value) <==> k == KeyOf(e.op).value {
        KeyStringIsInjective(k, KeyOf(e.op).value);
      }
    }
  }

  /** The memory store refines the simple one: however evictions, with clock
      reads as stale as they like, interleave with the other operations, every
      load answers as if nothing were ever evicted. */
  lemma {:induction false} MemoryRefinesSimpleStore(h: seq<Timed>, ttl: int, now: int)
    requires ValidHistory(h) && forall e | e in h :: e.at <= now
    ensures Run(h, ttl).answers == SimpleRun(h, ttl).answers
    ensures Agrees(Run(h, ttl).items, SimpleRun(h, ttl).items, now)
  {
    hide Apply, SimpleApply, ClockInOrder, Agrees, KeyOf;
    if h == [] {
      NothingStored(now);
    } else {
      var n := |h| - 1;
      var rest := h[..n];
      forall e | e in rest ensures e in h && e.at <= h[n].at {
        var i :| 0 <= i < n && rest[i] == e;
      }
      MemoryRefinesSimpleStore(rest, ttl, h[n].at);
      assert h[n] in h;
      ApplyAgrees(Run(rest, ttl), SimpleRun(rest, ttl), h[n], ttl);
      AgreesLater(Run(h, ttl).items, SimpleRun(h, ttl).items, h[n].at, now);
    }
  }

  lemma NothingStored(now: int)
    ensures Agrees(map[], map[], now)
  {
  }

  function WithoutEvictions(h: seq<Timed>): seq<Timed> {
    if h == [] then []
    else
      var w := WithoutEvictions(h[..|h| - 1]);
      if h[|h| - 1].op.OpEvict? then w else w + [h[|h| - 1]]
  }

  lemma {:induction false} SimpleIgnoresEvictions(h: seq<Timed>, ttl: int)
    ensures SimpleRun(WithoutEvictions(h), ttl) == SimpleRun(h, ttl)
    ensures forall e | e in WithoutEvictions(h) :: e in h
  {
    if h != [] {
      var n := |h| - 1;
      SimpleIgnoresEvictions(h[..n], ttl);
      var w := WithoutEvictions(h[..n]);
      assert (w + [h[n]])[..|w|] == w;
      assert h == h[..n] + [h[n]];
    }
  }

  lemma {:induction false} WithoutEvictionsIsValid(h: seq<Timed>)
    requires ValidHistory(h)
    ensures ValidHistory(WithoutEvictions(h))
  {
    hide ClockInOrder, ColonFree, KeyOf;
    if h != [] {
      var n := |h| - 1;
      assert h == h[..n] + [h[n]];
      WithoutEvictionsIsValid(h[..n]);
      SimpleIgnoresEvictions(h[..n], 0);
      var w := WithoutEvictions(h[..n]);
      forall i | 0 <= i < |w| ensures w[i].at <= h[n].at {
        assert w[i] in h[..n];
      }
    }
  }

  /** The sweeper frees memory and changes no answer. */
  lemma EvictionIsInvisible(h: seq<Timed>, ttl: int, now: int)
    requires ValidHistory(h) && forall e | e in h :: e.at <= now
    ensures Run(h, ttl).answers == Run(WithoutEvictions(h), ttl).answers
  {
    hide ValidHistory, Run, SimpleRun;
    WithoutEvictionsIsValid(h);
    SimpleIgnoresEvictions(h, ttl);
    MemoryRefinesSimpleStore(h, ttl, now);
    MemoryRefinesSimpleStore(WithoutEvictions(h), ttl, now);
  }

  predicate Spares(op: Op, k: Key) {
    (op.OpSave? ==> op.session.key != k) && (op.OpDelete? ==> op.key != k)
  }

  /** None of `h` saves or deletes `k`. */
  ghost predicate LeavesAlone(h: seq<Timed>, k: Key) {
    forall i | 0 <= i < |h| :: Spares(h[i].op, k)
  }

  lemma SimpleApplySpares(o: Outcome<Key>, op: Op, k: Key, ttl: int)
    requires Spares(op, k)
    ensures Entry(SimpleApply(o, op, ttl).items, k) == Entry(o.items, k)
  {
  }

  lemma {:induction false} SimpleKeepsEntry(h: seq<Timed>, more: seq<Timed>, k: Key, ttl: int)
    requires LeavesAlone(more, k)
    ensures Entry(SimpleRun(h + more, ttl).items, k) == Entry(SimpleRun(h, ttl).items, k)
  {
    hide SimpleApply, Entry, Spares;
    if more == [] {
      assert h + more == h;
    } else {
      var n := |more| - 1;
      SimpleKeepsEntry(h, more[..n], k, ttl);
      SimpleApplySpares(SimpleRun(h + more[..n], ttl), more[n].op, k, ttl);
      assert (h + more)[..|h + more| - 1] == h + more[..n] && (h + more)[|h + more| - 1] == more[n];
    }
  }

  /** A Save refreshes the idle deadline: whatever else happens in between, the
      session is found until `ttl` past the clock reading of its last Save, and
      never from then on. */
  lemma SaveLastsUntilDeadline(h: seq<Timed>, save: Timed, more: seq<Timed>, load: Timed, ttl: int, now: int)
    requires save.op.OpSave? && ValidKey(save.op.session.key)
    requires load.op.OpLoad? && load.op.key == save.op.session.key
    requires LeavesAlone(more, save.op.session.key)
    requires var all := h + [save] + more + [load]; ValidHistory(all) && forall e | e in all :: e.at <= now
    ensures var answers := Run(h + [save] + more + [load], ttl).answers;
            && answers != []
            && answers[|answers| - 1] ==
              if load.op.judgedAt < save.op.readAt + ttl then Found(Stamped(save.op.session, save.op.readAt)) else NotFound
  {
    hide ValidHistory, Run;
    var before := h + [save] + more;
    var all := before + [load];
    MemoryRefinesSimpleStore(all, ttl, now);
    assert all[..|before|] == before && (h + [save])[..|h|] == h;
    SimpleKeepsEntry(h + [save], more, save.op.session.key, ttl);
  }
}
