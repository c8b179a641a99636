/** The tenant table: building it from configuration, and routing an event to
    the tenant whose prefix matches most of its path. */
module Routing {
  import opened Text
  import opened Canonical

  /** `urlScheme` is what parsing `webhookURL` yields: None when it does not
      parse. */
  datatype Tenant = Tenant(
    name: string, shortcode: string, prefix: seq<string>,
    webhookURL: string, urlScheme: Option<string>, secret: string)

  datatype TenantError =
    | NoName
    | NoShortcode
    | NoWebhookURL
    | NoSecret
    | UnparseableURL
    | WrongScheme(scheme: string)
    | EmptySegment(index: nat)

  datatype ConfigError =
    | BadTenant(index: nat, error: TenantError)
    | DuplicateName(index: nat)
    | RouteCollision(index: nat)
    | WrongRoots(shortcode: string, roots: nat)

  predicate ValidTenant(t: Tenant) {
    && t.name != "" && t.shortcode != "" && t.webhookURL != "" && t.secret != ""
    && (t.urlScheme == Some("http") || t.urlScheme == Some("https"))
    && forall seg | seg in t.prefix :: seg != ""
  }

  /** The tenant breaks the rule that `e` names. */
  predicate Faulty(t: Tenant, e: TenantError) {
    match e
    case NoName => t.name == ""
    case NoShortcode => t.shortcode == ""
    case NoWebhookURL => t.webhookURL == ""
    case NoSecret => t.secret == ""
    case UnparseableURL => t.urlScheme.None?
    case WrongScheme(scheme) => t.urlScheme == Some(scheme) && scheme != "http" && scheme != "https"
    case EmptySegment(index) => index < |t.prefix| && t.prefix[index] == ""
  }

  /** The order in which the rules are checked. */
  function FaultRank(e: TenantError): nat {
    match e
    case NoName => 0
    case NoShortcode => 1
    case NoWebhookURL => 2
    case NoSecret => 3
    case UnparseableURL => 4
    case WrongScheme(_) => 5
    case EmptySegment(index) => 6 + index
  }

  method ValidateTenant(t: Tenant) returns (err: Option<TenantError>)
    ensures err.None? <==> ValidTenant(t)
    ensures err.None? ==> forall e :: !Faulty(t, e)
    ensures err.Some? ==> Faulty(t, err.value) && forall e | Faulty(t, e) :: FaultRank(err.value) <= FaultRank(e)
  {
    if t.name == "" {
      return Some(NoName);
    } else if t.shortcode == "" {
      return Some(NoShortcode);
    } else if t.webhookURL == "" {
      return Some(NoWebhookURL);
    } else if t.secret == "" {
      return Some(NoSecret);
    }
    if t.urlScheme.None? {
      return Some(UnparseableURL);
    }
    if t.urlScheme.value != "http" && t.urlScheme.value != "https" {
      return Some(WrongScheme(t.urlScheme.value));
    }
    for i := 0 to |t.prefix|
      invariant forall j | 0 <= j < i :: t.prefix[j] != ""
    {
      if t.prefix[i] == "" {
        assert t.prefix[i] in t.prefix;
        return Some(EmptySegment(i));
      }
    }
    return None;
  }

  /** The string under which a tenant's claim is recorded. */
  function RouteKey(t: Tenant): string {
    t.shortcode + "|" + Join(t.prefix, "*")
  }

  // ---------- what a recorded claim tells apart ----------

  /** A claim as an operator writes it: no bar in the shortcode, and no star in a
      segment, as no input has one. */
  predicate PlainClaim(t: Tenant) {
    '|' !in t.shortcode && StarFree(t.prefix)
  }

  predicate SameClaim(t: Tenant, u: Tenant) {
    t.shortcode == u.shortcode && t.prefix == u.prefix
  }

  /** The segments, each split again at its stars. */
  function Pieces(prefix: seq<string>): seq<string> {
    if prefix == [] then [] else Split(prefix[0], '*') + Pieces(prefix[1..])
  }

  lemma {:induction false} JoinedPieces(prefix: seq<string>)
    requires prefix != []
    ensures Split(Join(prefix, "*"), '*') == Pieces(prefix)
  {
    if |prefix| == 1 {
      assert Pieces(prefix[1..]) == [];
    } else {
      JoinedPieces(prefix[1..]);
      SplitAppend(prefix[0], Join(prefix[1..], "*"), '*');
    }
  }

  lemma SamePieces(p: seq<string>, q: seq<string>)
    requires (forall seg | seg in p :: seg != "") && (forall seg | seg in q :: seg != "")
    ensures Join(p, "*") == Join(q, "*") <==> Pieces(p) == Pieces(q)
  {
    EmptyJoin(p);
    EmptyJoin(q);
    if p != [] && q != [] {
      JoinedPieces(p);
      JoinedPieces(q);
      JoinSplit(Join(p, "*"), '*');
      JoinSplit(Join(q, "*"), '*');
    }
  }

  lemma EmptyJoin(p: seq<string>)
    requires forall seg | seg in p :: seg != ""
    ensures (Join(p, "*") == "" <==> p == []) && (Pieces(p) == [] <==> p == [])
  {
    if p != [] {
      assert p[0] in p;
    }
  }

  lemma {:induction false} StarFreePieces(p: seq<string>)
    requires StarFree(p)
    ensures Pieces(p) == p
  {
    if p != [] {
      assert p[0] in p && forall seg | seg in p[1..] :: seg in p;
      StarFreePieces(p[1..]);
      SplitHead(p[0], "", '*');
    }
  }

  /** One shortcode goes on where the other's bar stands, and its claim makes up for
      it. */
  predicate Straddles(t: Tenant, u: Tenant) {
    t.shortcode + "|" <= u.shortcode
    && Join(t.prefix, "*") == u.shortcode[|t.shortcode| + 1..] + "|" + Join(u.prefix, "*")
  }

  /** Exactly when two valid tenants are recorded under the same string: their
      shortcodes are the same and their prefixes have the same pieces between stars,
      or one shortcode has a bar that the other's record supplies. */
  lemma RouteKeysMeetIff(t: Tenant, u: Tenant)
    requires ValidTenant(t) && ValidTenant(u)
    ensures RouteKey(t) == RouteKey(u) <==>
            || (t.shortcode == u.shortcode && Pieces(t.prefix) == Pieces(u.prefix))
            || Straddles(t, u) || Straddles(u, t)
  {
    hide Join, Pieces;
    SamePieces(t.prefix, u.prefix);
    BarsMeet(t.shortcode, Join(t.prefix, "*"), u.shortcode, Join(u.prefix, "*"));
  }

  lemma BarsMeet(a: string, x: string, b: string, y: string)
    ensures a + "|" + x == b + "|" + y <==>
            || (a == b && x == y)
            || (a + "|" <= b && x == b[|a| + 1..] + "|" + y)
            || (b + "|" <= a && y == a[|b| + 1..] + "|" + x)
  {
    var s, t := a + "|" + x, b + "|" + y;
    if |a| < |b| {
      BarInside(a, x, b, y);
    } else if |b| < |a| {
      BarInside(b, y, a, x);
    } else {
      assert s[..|a|] == a && s[|a| + 1..] == x && t[..|b|] == b && t[|b| + 1..] == y;
    }
  }

  lemma BarInside(a: string, x: string, b: string, y: string)
    requires |a| < |b|
    ensures a + "|" + x == b + "|" + y <==> a + "|" <= b && x == b[|a| + 1..] + "|" + y
  {
    var s, t := a + "|" + x, b + "|" + y;
    if s == t {
      assert a + "|" == s[..|a| + 1] == b[..|a| + 1];
      assert x == s[|a| + 1..] == t[|a| + 1..] == b[|a| + 1..] + "|" + y;
    }
    if a + "|" <= b && x == b[|a| + 1..] + "|" + y {
      assert b == a + "|" + b[|a| + 1..];
      assert s == t;
    }
  }

  /** Claims as operators write them are told apart exactly. */
  lemma RouteKeyIsClaim(t: Tenant, u: Tenant)
    requires ValidTenant(t) && ValidTenant(u) && PlainClaim(t) && PlainClaim(u)
    ensures RouteKey(t) == RouteKey(u) <==> SameClaim(t, u)
  {
    hide RouteKey, Pieces, Join;
    RouteKeysMeetIff(t, u);
    StarFreePieces(t.prefix);
    StarFreePieces(u.prefix);
    BarIsInside(t.shortcode, u.shortcode);
    BarIsInside(u.shortcode, t.shortcode);
  }

  lemma BarIsInside(a: string, b: string)
    ensures a + "|" <= b ==> '|' in b
  {
    if a + "|" <= b {
      assert b[|a|] == '|';
    }
  }

  // ---------- the table ----------

  datatype Router = Router(byShortcode: map<string, seq<Tenant>>)

  /** The tenants of one shortcode, in configuration order. */
  function Group(tenants: seq<Tenant>, shortcode: string): seq<Tenant> {
    if tenants == [] then []
    else
      var last := tenants[|tenants| - 1];
      Group(tenants[..|tenants| - 1], shortcode) + if last.shortcode == shortcode then [last] else []
  }

  lemma GroupSnoc(tenants: seq<Tenant>, t: Tenant, shortcode: string)
    ensures Group(tenants + [t], shortcode) ==
            if t.shortcode == shortcode then Group(tenants, shortcode) + [t] else Group(tenants, shortcode)
  {
    assert (tenants + [t])[..|tenants|] == tenants;
  }

  lemma {:induction false} GroupMembers(tenants: seq<Tenant>, shortcode: string, t: Tenant)
    ensures t in Group(tenants, shortcode) <==> t in tenants && t.shortcode == shortcode
  {
    if tenants != [] {
      var n := |tenants| - 1;
      GroupMembers(tenants[..n], shortcode, t);
      assert tenants == tenants[..n] + [tenants[n]];
    }
  }

  predicate LongestFirst(group: seq<Tenant>) {
    forall i, j | 0 <= i < j < |group| :: |group[i].prefix| >= |group[j].prefix|
  }

  /** `t` placed after every tenant with at least as long a prefix. */
  function Insert(group: seq<Tenant>, t: Tenant): seq<Tenant> {
    if group != [] && |group[|group| - 1].prefix| < |t.prefix| then
      Insert(group[..|group| - 1], t) + [group[|group| - 1]]
    else group + [t]
  }

  /** `sort.SliceStable` by descending prefix length. */
  function StableSort(group: seq<Tenant>): seq<Tenant> {
    if group == [] then [] else Insert(StableSort(group[..|group| - 1]), group[|group| - 1])
  }

  lemma {:induction false} InsertPermutes(group: seq<Tenant>, t: Tenant)
    ensures multiset(Insert(group, t)) == multiset(group) + multiset{t}
  {
    if group != [] && |group[|group| - 1].prefix| < |t.prefix| {
      var n := |group| - 1;
      InsertPermutes(group[..n], t);
      assert group == group[..n] + [group[n]];
    }
  }

  lemma {:induction false} SortPermutes(group: seq<Tenant>)
    ensures multiset(StableSort(group)) == multiset(group)
  {
    hide Insert;
    if group != [] {
      var n := |group| - 1;
      SortPermutes(group[..n]);
      InsertPermutes(StableSort(group[..n]), group[n]);
      assert group == group[..n] + [group[n]];
    }
  }

  lemma {:induction false} InsertKeepsOrder(group: seq<Tenant>, t: Tenant, bound: nat)
    requires LongestFirst(group) && |t.prefix| >= bound
    requires forall i | 0 <= i < |group| :: |group[i].prefix| >= bound
    ensures LongestFirst(Insert(group, t))
    ensures forall i | 0 <= i < |Insert(group, t)| :: |Insert(group, t)[i].prefix| >= bound
  {
    if group != [] && |group[|group| - 1].prefix| < |t.prefix| {
      var n := |group| - 1;
      InsertKeepsOrder(group[..n], t, |group[n].prefix|);
    }
  }

  lemma {:induction false} SortOrders(group: seq<Tenant>)
    ensures LongestFirst(StableSort(group))
  {
    if group != [] {
      SortOrders(group[..|group| - 1]);
      InsertKeepsOrder(StableSort(group[..|group| - 1]), group[|group| - 1], 0);
    }
  }

  /** The table built from a configuration. */
  ghost predicate BuiltFrom(router: Router, tenants: seq<Tenant>) {
    && (forall sc :: sc in router.byShortcode <==> Group(tenants, sc) != [])
    && forall sc | sc in router.byShortcode :: router.byShortcode[sc] == StableSort(Group(tenants, sc))
  }

  /** The rules on a configuration, as NewRouter promises them: each tenant is
      valid, names and claims are unique, and each shortcode has a tenant with an
      empty prefix to answer the first screen. */
  ghost predicate Accepts(tenants: seq<Tenant>) {
    Admissible(tenants) && forall t | t in tenants :: HasRoot(tenants, t.shortcode)
  }

  ghost predicate Admissible(tenants: seq<Tenant>) {
    && (forall t | t in tenants :: ValidTenant(t))
    && (forall i, j | 0 <= i < j < |tenants| :: tenants[i].name != tenants[j].name)
    && (forall i, j | 0 <= i < j < |tenants| :: RouteKey(tenants[i]) != RouteKey(tenants[j]))
  }

  ghost predicate HasRoot(tenants: seq<Tenant>, shortcode: string) {
    exists r :: r in tenants && IsRoot(r, shortcode)
  }

  predicate IsRoot(r: Tenant, shortcode: string) {
    r.shortcode == shortcode && r.prefix == []
  }

  function Roots(group: seq<Tenant>): nat {
    if group == [] then 0
    else Roots(group[..|group| - 1]) + if group[|group| - 1].prefix == [] then 1 else 0
  }

  method CountRoots(group: seq<Tenant>) returns (roots: nat)
    ensures roots == Roots(group)
  {
    roots := 0;
    for i := 0 to |group|
      invariant roots == Roots(group[..i])
    {
      assert group[..i + 1][..i] == group[..i];
      if |group[i].prefix| == 0 {
        roots := roots + 1;
      }
    }
    assert group[..|group|] == group;
  }

  /** With distinct claims a shortcode never has two roots. */
  lemma {:induction false} RootsOfGroup(tenants: seq<Tenant>, shortcode: string)
    requires Admissible(tenants)
    ensures Roots(Group(tenants, shortcode)) == if HasRoot(tenants, shortcode) then 1 else 0
  {
    hide ValidTenant, RouteKey, HasRoot, IsRoot;
    if tenants == [] {
      NoRootInEmpty(shortcode);
    } else {
      var n := |tenants| - 1;
      var rest, last := tenants[..n], tenants[n];
      assert tenants == rest + [last];
      RootsOfGroup(rest, shortcode);
      RootSnoc(rest, last, shortcode);
      RootsSnoc(rest, last, shortcode);
    }
  }

  lemma NoRootInEmpty(shortcode: string)
    ensures !HasRoot([], shortcode)
  {
  }

  lemma RootsSnoc(rest: seq<Tenant>, last: Tenant, shortcode: string)
    ensures Roots(Group(rest + [last], shortcode)) ==
            Roots(Group(rest, shortcode)) + if IsRoot(last, shortcode) then 1 else 0
  {
    GroupSnoc(rest, last, shortcode);
    assert (Group(rest, shortcode) + [last])[..|Group(rest, shortcode)|] == Group(rest, shortcode);
  }

  lemma RootSnoc(rest: seq<Tenant>, last: Tenant, shortcode: string)
    requires Admissible(rest + [last])
    ensures HasRoot(rest + [last], shortcode) <==> HasRoot(rest, shortcode) || IsRoot(last, shortcode)
    ensures !(HasRoot(rest, shortcode) && IsRoot(last, shortcode))
  {
    hide ValidTenant;
    var all := rest + [last];
    assert last in all;
    forall r | r in rest && IsRoot(r, shortcode) ensures !IsRoot(last, shortcode) {
      var i :| 0 <= i < |rest| && rest[i] == r;
      assert all[i] == r && all[|rest|] == last;
    }
  }

  // ---------- NewRouter ----------

  function Names(tenants: seq<Tenant>): set<string> {
    set t | t in tenants :: t.name
  }

  function Keys(tenants: seq<Tenant>): set<string> {
    set t | t in tenants :: RouteKey(t)
  }

  /** One more tenant is admissible exactly when it is valid and brings a new
      name and a new claim. */
  lemma AdmissibleSnoc(done: seq<Tenant>, t: Tenant)
    requires Admissible(done)
    ensures Admissible(done + [t]) <==> ValidTenant(t) && t.name !in Names(done) && RouteKey(t) !in Keys(done)
  {
    hide ValidTenant, RouteKey;
    var all := done + [t];
    if Admissible(all) {
      assert t in all;
      forall u | u in done ensures u.name != t.name && RouteKey(u) != RouteKey(t) {
        var i :| 0 <= i < |done| && done[i] == u;
        assert all[i] == u && all[|done|] == t;
      }
    }
  }

  lemma AdmissiblePrefix(tenants: seq<Tenant>, n: nat)
    requires n <= |tenants| && Admissible(tenants)
    ensures Admissible(tenants[..n])
  {
    hide ValidTenant, RouteKey;
  }

  /** The table so far holds exactly the groups of the tenants so far. */
  ghost predicate Tabled(table: map<string, seq<Tenant>>, done: seq<Tenant>) {
    forall sc :: (if sc in table then table[sc] else []) == Group(done, sc) && (sc in table ==> table[sc] != [])
  }

  lemma TabledSnoc(table: map<string, seq<Tenant>>, done: seq<Tenant>, t: Tenant)
    requires Tabled(table, done)
    ensures Tabled(table[t.shortcode := (if t.shortcode in table then table[t.shortcode] else []) + [t]], done + [t])
  {
    hide Group;
    forall sc ensures Group(done + [t], sc) == if t.shortcode == sc then Group(done, sc) + [t] else Group(done, sc) {
      GroupSnoc(done, t, sc);
    }
  }

  ghost predicate AllValid(tenants: seq<Tenant>) {
    forall t | t in tenants :: ValidTenant(t)
  }

  ghost predicate NoNameTwice(tenants: seq<Tenant>) {
    forall i, j | 0 <= i < j < |tenants| :: tenants[i].name != tenants[j].name
  }

  ghost predicate NoClaimTwice(tenants: seq<Tenant>) {
    forall i, j | 0 <= i < j < |tenants| :: !SameClaim(tenants[i], tenants[j])
  }

  /** Every shortcode has a tenant that answers the first screen. */
  ghost predicate RootEverywhere(tenants: seq<Tenant>) {
    forall t | t in tenants :: exists r :: r in tenants && r.shortcode == t.shortcode && r.prefix == []
  }

  /** On such claims the configurations that NewRouter accepts are these: every
      tenant valid, no name twice, no shortcode and prefix claimed twice, and a
      tenant with an empty prefix on every shortcode. */
  lemma AcceptsIff(tenants: seq<Tenant>)
    requires forall t | t in tenants :: PlainClaim(t)
    ensures Accepts(tenants) <==>
            AllValid(tenants) && NoNameTwice(tenants) && NoClaimTwice(tenants) && RootEverywhere(tenants)
  {
    hide Admissible, AllValid, NoNameTwice, NoClaimTwice, RootEverywhere, HasRoot, PlainClaim;
    AdmissibleIff(tenants);
    RootsAreEmpty(tenants);
  }

  lemma AdmissibleIff(tenants: seq<Tenant>)
    requires forall t | t in tenants :: PlainClaim(t)
    ensures Admissible(tenants) <==> AllValid(tenants) && NoNameTwice(tenants) && NoClaimTwice(tenants)
  {
    hide ValidTenant, RouteKey, PlainClaim, NoClaimTwice;
    if AllValid(tenants) {
      ClaimsAreKeys(tenants);
    }
  }

  lemma ClaimsAreKeys(tenants: seq<Tenant>)
    requires forall t | t in tenants :: PlainClaim(t) && ValidTenant(t)
    ensures (forall i, j | 0 <= i < j < |tenants| :: RouteKey(tenants[i]) != RouteKey(tenants[j])) <==> NoClaimTwice(tenants)
  {
    hide ValidTenant, RouteKey, PlainClaim, SameClaim;
    forall i, j | 0 <= i < j < |tenants|
      ensures RouteKey(tenants[i]) == RouteKey(tenants[j]) <==> SameClaim(tenants[i], tenants[j])
    {
      RouteKeyIsClaim(tenants[i], tenants[j]);
    }
  }

  lemma RootsAreEmpty(tenants: seq<Tenant>)
    ensures (forall t | t in tenants :: HasRoot(tenants, t.shortcode)) <==> RootEverywhere(tenants)
  {
    forall t | t in tenants
      ensures HasRoot(tenants, t.shortcode) <==> exists r :: r in tenants && r.shortcode == t.shortcode && r.prefix == []
    {
      if r :| r in tenants && r.shortcode == t.shortcode && r.prefix == [] {
        assert IsRoot(r, t.shortcode);
      }
    }
  }

  /** What a refusal says is so: the first tenant that is faulty or repeats a name
      or a claim of those before it, or else a shortcode without its one root. */
  ghost predicate Explains(e: ConfigError, tenants: seq<Tenant>) {
    match e
    case BadTenant(i, error) => i < |tenants| && Admissible(tenants[..i]) && Faulty(tenants[i], error)
    case DuplicateName(i) => i < |tenants| && Admissible(tenants[..i]) && tenants[i].name in Names(tenants[..i])
    case RouteCollision(i) => i < |tenants| && Admissible(tenants[..i]) && RouteKey(tenants[i]) in Keys(tenants[..i])
    case WrongRoots(shortcode, roots) =>
      && Admissible(tenants) && (exists t :: t in tenants && t.shortcode == shortcode)
      && roots == Roots(Group(tenants, shortcode)) != 1
  }

  method NewRouter(tenants: seq<Tenant>) returns (router: Option<Router>, err: Option<ConfigError>)
    ensures router.Some? <==> Accepts(tenants)
    ensures router.Some? ==> BuiltFrom(router.value, tenants)
    ensures router.Some? <==> err.None?
    ensures err.Some? ==> Explains(err.value, tenants)
  {
    hide ValidTenant, RouteKey, Admissible, Tabled, HasRoot, BuiltFrom;
    var table: map<string, seq<Tenant>> := map[];
    var seen: set<string>, names: set<string> := {}, {};
    NothingTabled();
    for i := 0 to |tenants|
      invariant Admissible(tenants[..i])
      invariant names == Names(tenants[..i]) && seen == Keys(tenants[..i])
      invariant Tabled(table, tenants[..i])
    {
      var t := tenants[i];
      assert tenants[..i + 1] == tenants[..i] + [t];
      AdmissibleSnoc(tenants[..i], t);
      if Admissible(tenants) {
        AdmissiblePrefix(tenants, i + 1);
      }
      var bad := ValidateTenant(t);
      if bad.Some? {
        return None, Some(BadTenant(i, bad.value));
      }
      if t.name in names {
        return None, Some(DuplicateName(i));
      }
      names := names + {t.name};
      if RouteKey(t) in seen {
        return None, Some(RouteCollision(i));
      }
      seen := seen + {RouteKey(t)};
      TabledSnoc(table, tenants[..i], t);
      table := table[t.shortcode := (if t.shortcode in table then table[t.shortcode] else []) + [t]];
    }
    assert tenants[..|tenants|] == tenants;
    err, table := SortGroups(tenants, table);
    if err.Some? {
      return None, err;
    }
    router := Some(Router(table));
  }

  lemma NothingTabled()
    ensures Tabled(map[], []) && Admissible([])
  {
  }

  /** The second pass: one root per shortcode, longest prefix first. */
  method SortGroups(tenants: seq<Tenant>, table: map<string, seq<Tenant>>)
    returns (err: Option<ConfigError>, sorted: map<string, seq<Tenant>>)
    requires Admissible(tenants) && Tabled(table, tenants)
    ensures err.None? <==> forall t | t in tenants :: HasRoot(tenants, t.shortcode)
    ensures err.Some? ==> Explains(err.value, tenants)
    ensures err.None? ==> BuiltFrom(Router(sorted), tenants)
  {
    hide HasRoot, Admissible, Roots, StableSort, Group;
    sorted := table;
    var todo := table.Keys;
    while todo != {}
      invariant todo <= table.Keys == sorted.Keys
      invariant forall sc | sc in todo :: sorted[sc] == table[sc]
      invariant forall sc | sc in table && sc !in todo :: HasRoot(tenants, sc) && sorted[sc] == StableSort(table[sc])
      decreases todo
    {
      var shortcode :| shortcode in todo;
      var roots := CountRoots(sorted[shortcode]);
      RootsOfGroup(tenants, shortcode);
      if roots != 1 {
        var t := table[shortcode][0];
        GroupMembers(tenants, shortcode, t);
        return Some(WrongRoots(shortcode, roots)), sorted;
      }
      sorted := sorted[shortcode := StableSort(sorted[shortcode])];
      todo := todo - {shortcode};
    }
    forall t | t in tenants ensures HasRoot(tenants, t.shortcode) {
      GroupMembers(tenants, t.shortcode, t);
      assert t.shortcode in table;
    }
    err := None;
  }

  // ---------- routing ----------

  method HasPrefix(path: seq<string>, prefix: seq<string>) returns (ok: bool)
    ensures ok <==> prefix <= path
  {
    if |prefix| > |path| {
      return false;
    }
    for i := 0 to |prefix|
      invariant prefix[..i] == path[..i]
    {
      if path[i] != prefix[i] {
        return false;
      }
    }
    assert prefix[..|prefix|] == prefix;
    return true;
  }

  function FirstMatch(group: seq<Tenant>, path: seq<string>): Option<Tenant>
    decreases |group|
  {
    if group == [] then None
    else if group[0].prefix <= path then Some(group[0])
    else FirstMatch(group[1..], path)
  }

  datatype Route = NoRoute(segments: nat) | Route(target: Tenant, path: seq<string>)

  function RouteOf(router: Router, shortcode: string, path: seq<string>): Route {
    var group := if shortcode in router.byShortcode then router.byShortcode[shortcode] else [];
    match FirstMatch(group, path)
    case None => NoRoute(|path|)
    case Some(t) => if |t.prefix| <= |path| then Route(t, path[|t.prefix|..]) else NoRoute(|path|)
  }

  method RouteEvent(router: Router, ev: Event) returns (route: Route)
    ensures route == RouteOf(router, ev.shortcode, ev.path)
  {
    var group := if ev.shortcode in router.byShortcode then router.byShortcode[ev.shortcode] else [];
    for i := 0 to |group|
      invariant FirstMatch(group, ev.path) == FirstMatch(group[i..], ev.path)
    {
      var t := group[i];
      assert group[i..][0] == t && group[i..][1..] == group[i + 1..];
      var matches := HasPrefix(ev.path, t.prefix);
      if matches {
        return Route(t, ev.path[|t.prefix|..]);
      }
    }
    assert group[|group|..] == [];
    route := NoRoute(|ev.path|);
  }

  // ---------- the right tenant, whatever the order ----------

  /** `t` claims `shortcode` and its prefix starts `path`. */
  predicate Claims(tenants: seq<Tenant>, shortcode: string, path: seq<string>, t: Tenant) {
    t in tenants && t.shortcode == shortcode && t.prefix <= path
  }

  /** `t` is the most specific claimant. */
  ghost predicate Answers(tenants: seq<Tenant>, shortcode: string, path: seq<string>, t: Tenant) {
    && Claims(tenants, shortcode, path, t)
    && forall u | Claims(tenants, shortcode, path, u) :: |u.prefix| <= |t.prefix|
  }

  lemma {:induction false} FirstMatchIsLongest(group: seq<Tenant>, path: seq<string>)
    requires LongestFirst(group)
    ensures match FirstMatch(group, path)
            case None => forall u | u in group :: !(u.prefix <= path)
            case Some(t) =>
              && t in group && t.prefix <= path
              && forall u | u in group && u.prefix <= path :: |u.prefix| <= |t.prefix|
    decreases |group|
  {
    if group != [] {
      assert group == [group[0]] + group[1..];
      if !(group[0].prefix <= path) {
        FirstMatchIsLongest(group[1..], path);
      }
    }
  }

  /** Two claimants of the same depth are the same tenant. */
  lemma AnswerIsUnique(tenants: seq<Tenant>, shortcode: string, path: seq<string>, t: Tenant, u: Tenant)
    requires Accepts(tenants)
    requires Answers(tenants, shortcode, path, t) && Answers(tenants, shortcode, path, u)
    ensures t == u
  {
    hide ValidTenant, HasRoot;
    assert t.prefix == path[..|t.prefix|] == path[..|u.prefix|] == u.prefix;
    assert RouteKey(t) == RouteKey(u);
  }

  lemma MatchInTable(router: Router, tenants: seq<Tenant>, shortcode: string, path: seq<string>)
    requires BuiltFrom(router, tenants) && shortcode in router.byShortcode
    ensures match FirstMatch(router.byShortcode[shortcode], path)
            case None => forall u :: !Claims(tenants, shortcode, path, u)
            case Some(t) => Answers(tenants, shortcode, path, t)
  {
    hide Group, StableSort;
    var group := router.byShortcode[shortcode];
    SortOrders(Group(tenants, shortcode));
    SortPermutes(Group(tenants, shortcode));
    FirstMatchIsLongest(group, path);
    forall t ensures t in group <==> t in tenants && t.shortcode == shortcode {
      GroupMembers(tenants, shortcode, t);
      assert t in group <==> t in multiset(group);
    }
  }

  lemma ConfiguredShortcode(router: Router, tenants: seq<Tenant>, shortcode: string)
    requires BuiltFrom(router, tenants)
    ensures shortcode in router.byShortcode <==> exists t :: t in tenants && t.shortcode == shortcode
  {
    hide StableSort;
    var group := Group(tenants, shortcode);
    if group != [] {
      GroupMembers(tenants, shortcode, group[0]);
    }
    forall t | t in tenants && t.shortcode == shortcode ensures group != [] {
      GroupMembers(tenants, shortcode, t);
    }
  }

  /** An accepted configuration routes every path on every configured shortcode,
      and only those, to the one tenant with the longest matching prefix; the
      tenant sees exactly the rest of the path. */
  lemma RouterIsCorrect(router: Router, tenants: seq<Tenant>, shortcode: string, path: seq<string>)
    requires Accepts(tenants) && BuiltFrom(router, tenants)
    ensures match RouteOf(router, shortcode, path)
            case NoRoute(n) => n == |path| && forall t | t in tenants :: t.shortcode != shortcode
            case Route(t, routed) =>
              && Answers(tenants, shortcode, path, t)
              && (forall u | Answers(tenants, shortcode, path, u) :: u == t)
              && path == t.prefix + routed
  {
    hide BuiltFrom, Answers, Admissible, HasRoot;
    ConfiguredShortcode(router, tenants, shortcode);
    if shortcode in router.byShortcode {
      MatchInTable(router, tenants, shortcode, path);
      var root := RootClaims(tenants, shortcode, path);
      var t := FirstMatch(router.byShortcode[shortcode], path).value;
      AnswerStartsPath(tenants, shortcode, path, t);
      forall u | Answers(tenants, shortcode, path, u) ensures u == t {
        AnswerIsUnique(tenants, shortcode, path, u, t);
      }
    }
  }

  lemma AnswerStartsPath(tenants: seq<Tenant>, shortcode: string, path: seq<string>, t: Tenant)
    requires Answers(tenants, shortcode, path, t)
    ensures |t.prefix| <= |path| && path == t.prefix + path[|t.prefix|..]
  {
  }

  lemma RootClaims(tenants: seq<Tenant>, shortcode: string, path: seq<string>) returns (root: Tenant)
    requires Accepts(tenants) && exists t :: t in tenants && t.shortcode == shortcode
    ensures Claims(tenants, shortcode, path, root)
  {
    hide Admissible;
    root :| root in tenants && IsRoot(root, shortcode);
  }

  lemma PermutedDistinct(a: seq<Tenant>, b: seq<Tenant>)
    requires multiset(a) == multiset(b) && Accepts(a)
    ensures forall i, j | 0 <= i < j < |b| :: b[i].name != b[j].name && RouteKey(b[i]) != RouteKey(b[j])
  {
    hide ValidTenant, HasRoot, RouteKey;
    SameTenants(a, b);
    forall i, j | 0 <= i < j < |b| ensures b[i].name != b[j].name && RouteKey(b[i]) != RouteKey(b[j]) {
      NoTenantTwice(a, b[i]);
      OnceIsOnce(b, i, j);
      assert b[i] in a && b[j] in a;
    }
  }

  lemma OnceIsOnce(b: seq<Tenant>, i: nat, j: nat)
    requires i < j < |b| && multiset(b)[b[i]] <= 1
    ensures b[i] != b[j]
  {
    assert b == b[..j] + b[j..];
    assert b[i] in b[..j] && b[j] in b[j..];
  }

  lemma NoTenantTwice(a: seq<Tenant>, t: Tenant)
    requires forall i, j | 0 <= i < j < |a| :: a[i].name != a[j].name
    ensures multiset(a)[t] <= 1
  {
    if t in a {
      var i :| 0 <= i < |a| && a[i] == t;
      assert a == a[..i] + [t] + a[i + 1..];
      assert t !in a[..i] && t !in a[i + 1..];
    }
  }

  /** Whether a configuration is accepted does not depend on its order. */
  lemma AcceptsIsOrderIndependent(a: seq<Tenant>, b: seq<Tenant>)
    requires multiset(a) == multiset(b)
    ensures Accepts(a) <==> Accepts(b)
  {
    if Accepts(a) {
      AcceptsPermuted(a, b);
    }
    if Accepts(b) {
      AcceptsPermuted(b, a);
    }
  }

  lemma SameTenants(a: seq<Tenant>, b: seq<Tenant>)
    requires multiset(a) == multiset(b)
    ensures forall t :: t in a <==> t in b
  {
    forall t ensures t in a <==> t in b {
      assert t in a <==> t in multiset(a);
    }
  }

  lemma AcceptsPermuted(a: seq<Tenant>, b: seq<Tenant>)
    requires multiset(a) == multiset(b) && Accepts(a)
    ensures Accepts(b)
  {
    hide ValidTenant, RouteKey;
    PermutedDistinct(a, b);
    SameTenants(a, b);
  }

  lemma SameAnswers(a: seq<Tenant>, b: seq<Tenant>, shortcode: string, path: seq<string>, t: Tenant)
    requires multiset(a) == multiset(b)
    ensures Answers(a, shortcode, path, t) <==> Answers(b, shortcode, path, t)
  {
    SameTenants(a, b);
    forall u ensures Claims(a, shortcode, path, u) <==> Claims(b, shortcode, path, u) {}
  }

  /** Neither does any route. */
  lemma RouteIsOrderIndependent(a: seq<Tenant>, b: seq<Tenant>, ra: Router, rb: Router, shortcode: string, path: seq<string>)
    requires multiset(a) == multiset(b) && Accepts(a)
    requires BuiltFrom(ra, a) && BuiltFrom(rb, b)
    ensures RouteOf(ra, shortcode, path) == RouteOf(rb, shortcode, path)
  {
    hide BuiltFrom, Accepts, RouteOf, Answers;
    AcceptsPermuted(a, b);
    SameTenants(a, b);
    RouterIsCorrect(ra, a, shortcode, path);
    RouterIsCorrect(rb, b, shortcode, path);
    var x, y := RouteOf(ra, shortcode, path), RouteOf(rb, shortcode, path);
    if x.Route? {
      SameAnswers(a, b, shortcode, path, x.target);
      AnswerStartsPath(a, shortcode, path, x.target);
      assert x.target in b && x.target.shortcode == shortcode by { AnswerClaims(a, shortcode, path, x.target); }
      assert y.Route? && y.target == x.target;
      assert x.path == path[|x.target.prefix|..] == y.path;
    } else if y.Route? {
      AnswerClaims(b, shortcode, path, y.target);
    }
  }

  lemma AnswerClaims(tenants: seq<Tenant>, shortcode: string, path: seq<string>, t: Tenant)
    requires Answers(tenants, shortcode, path, t)
    ensures t in tenants && t.shortcode == shortcode
  {
  }
}
