/** How a dialogue moves between the tenants of a shared shortcode as its input
    path grows. */
module Handover {
  import opened Routing

  /** The paths of a dialogue, each extending the one before. */
  ghost predicate Grows(paths: seq<seq<string>>) {
    forall i, j | 0 <= i <= j < |paths| :: paths[i] <= paths[j]
  }

  /** `ts[i]` answers `paths[i]`. */
  ghost predicate AnsweredBy(tenants: seq<Tenant>, shortcode: string, paths: seq<seq<string>>, ts: seq<Tenant>) {
    |ts| == |paths| && forall i | 0 <= i < |ts| :: Answers(tenants, shortcode, paths[i], ts[i])
  }

  /** On a longer path the answering prefix can only get longer, and a tenant is
      replaced only by one with a strictly longer prefix. */
  lemma PrefixExtends(tenants: seq<Tenant>, shortcode: string, p: seq<string>, q: seq<string>, t: Tenant, u: Tenant)
    requires Accepts(tenants) && p <= q
    requires Answers(tenants, shortcode, p, t) && Answers(tenants, shortcode, q, u)
    ensures t.prefix <= u.prefix
    ensures t == u <==> |t.prefix| == |u.prefix|
  {
    hide Accepts;
    assert t.prefix == q[..|t.prefix|] && u.prefix == q[..|u.prefix|];
    assert Claims(tenants, shortcode, q, t);
    if |t.prefix| == |u.prefix| {
      AnswerIsUnique(tenants, shortcode, q, t, u);
    }
  }

  /** Handover is one-way: once a tenant is left it never answers again. */
  lemma NeverReturns(tenants: seq<Tenant>, shortcode: string, paths: seq<seq<string>>, ts: seq<Tenant>, i: nat, j: nat, k: nat)
    requires Accepts(tenants) && Grows(paths) && AnsweredBy(tenants, shortcode, paths, ts)
    requires i <= j <= k < |ts|
    ensures ts[i].prefix <= ts[j].prefix
    ensures ts[i] != ts[j] ==> ts[i] != ts[k]
  {
    hide Accepts, Answers;
    PrefixExtends(tenants, shortcode, paths[i], paths[j], ts[i], ts[j]);
    PrefixExtends(tenants, shortcode, paths[j], paths[k], ts[j], ts[k]);
  }

  /** How many times the answering tenant changes. */
  function Handovers(ts: seq<Tenant>): nat {
    if |ts| < 2 then 0
    else Handovers(ts[..|ts| - 1]) + if ts[|ts| - 1] == ts[|ts| - 2] then 0 else 1
  }

  function Visited(ts: seq<Tenant>): set<Tenant> {
    set t | t in ts
  }

  lemma {:induction false} EachHandoverVisitsAnother(
      tenants: seq<Tenant>, shortcode: string, paths: seq<seq<string>>, ts: seq<Tenant>)
    requires Accepts(tenants) && Grows(paths) && AnsweredBy(tenants, shortcode, paths, ts) && ts != []
    ensures Handovers(ts) + 1 == |Visited(ts)|
  {
    hide Accepts, Answers, Grows, AnsweredBy, Visited;
    var n := |ts| - 1;
    VisitedSnoc(ts);
    if n > 0 {
      ShorterDialogue(tenants, shortcode, paths, ts, n);
      EachHandoverVisitsAnother(tenants, shortcode, paths[..n], ts[..n]);
      if ts[n] != ts[n - 1] {
        NewTenantIsNew(tenants, shortcode, paths, ts);
      }
    }
  }

  lemma VisitedSnoc(ts: seq<Tenant>)
    requires ts != []
    ensures var n := |ts| - 1;
            && (n == 0 ==> |Visited(ts)| == 1)
            && (n > 0 && ts[n] == ts[n - 1] ==> Visited(ts) == Visited(ts[..n]))
            && (ts[n] !in Visited(ts[..n]) ==> |Visited(ts)| == |Visited(ts[..n])| + 1)
  {
    var n := |ts| - 1;
    assert ts == ts[..n] + [ts[n]];
    assert Visited(ts) == Visited(ts[..n]) + {ts[n]};
    assert n > 0 ==> ts[..n][n - 1] in Visited(ts[..n]);
    assert n == 0 ==> Visited(ts) == {ts[0]};
  }

  lemma ShorterDialogue(tenants: seq<Tenant>, shortcode: string, paths: seq<seq<string>>, ts: seq<Tenant>, n: nat)
    requires Grows(paths) && AnsweredBy(tenants, shortcode, paths, ts) && n <= |ts|
    ensures |ts| == |paths| && Grows(paths[..n]) && AnsweredBy(tenants, shortcode, paths[..n], ts[..n])
  {
    hide Answers;
  }

  lemma NewTenantIsNew(tenants: seq<Tenant>, shortcode: string, paths: seq<seq<string>>, ts: seq<Tenant>)
    requires Accepts(tenants) && Grows(paths) && AnsweredBy(tenants, shortcode, paths, ts)
    requires |ts| >= 2 && ts[|ts| - 1] != ts[|ts| - 2]
    ensures ts[|ts| - 1] !in Visited(ts[..|ts| - 1])
  {
    hide Accepts, Answers, Grows, AnsweredBy;
    var n := |ts| - 1;
    forall i | 0 <= i < n ensures ts[i] != ts[n] {
      NeverReturns(tenants, shortcode, paths, ts, i, n - 1, n);
    }
  }

  /** A dialogue is handed over fewer times than its shortcode has tenants. */
  lemma HandoversAreFew(tenants: seq<Tenant>, shortcode: string, paths: seq<seq<string>>, ts: seq<Tenant>)
    requires Accepts(tenants) && Grows(paths) && AnsweredBy(tenants, shortcode, paths, ts) && ts != []
    ensures Handovers(ts) < |set t | t in tenants && t.shortcode == shortcode|
  {
    hide Accepts, Handovers;
    EachHandoverVisitsAnother(tenants, shortcode, paths, ts);
    var all := set t | t in tenants && t.shortcode == shortcode;
    assert Visited(ts) <= all;
    SubsetIsSmaller(Visited(ts), all);
  }

  lemma {:induction false} SubsetIsSmaller(a: set<Tenant>, b: set<Tenant>)
    requires a <= b
    ensures |a| <= |b|
  {
    if a != {} {
      var t :| t in a;
      SubsetIsSmaller(a - {t}, b - {t});
    }
  }

  /** When one input is added per turn, a new tenant's prefix is the whole path:
      it starts from an empty path of its own. */
  lemma HandoverStartsEmpty(tenants: seq<Tenant>, shortcode: string, p: seq<string>, input: string, t: Tenant, u: Tenant)
    requires Accepts(tenants)
    requires Answers(tenants, shortcode, p, t) && Answers(tenants, shortcode, p + [input], u)
    ensures t != u ==> u.prefix == p + [input]
  {
    hide Accepts;
    var q := p + [input];
    PrefixExtends(tenants, shortcode, p, q, t, u);
    if t != u {
      assert u.prefix == q[..|u.prefix|];
      assert |u.prefix| <= |p| ==> Claims(tenants, shortcode, p, u);
    }
  }
}
