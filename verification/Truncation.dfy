/** Cutting one text to a rune limit (Truncate) and to a screen (Shrink). */
module Truncation {
  import opened Text
  import opened Encoding

  const ELLIPSIS: string := "..."
  const MAX_WORD_LOOKBACK: int := 24

  /** The latest space of `s` at an index from `floor` to `i`, or -1. */
  function LastSpace(s: string, i: int, floor: nat): (at: int)
    requires i < |s|
    ensures at == -1 || (floor <= at <= i && IsSpace(s[at]))
    ensures forall j | floor <= j <= i && at < j :: !IsSpace(s[j])
    decreases i + 1
  {
    if i < floor then -1 else if IsSpace(s[i]) then i else LastSpace(s, i - 1, floor)
  }

  /** How far back from a cut at `p` a word boundary is looked for. */
  function Floor(p: nat): nat {
    Max(p - MAX_WORD_LOOKBACK, p / 2)
  }

  /** What is kept of `s` when its first `p` runes have room. */
  function Kept(s: string, p: nat): string
    requires p < |s|
  {
    if IsSpace(s[p]) then TrimRight(s[..p])
    else
      var i := LastSpace(s, p - 1, Floor(p));
      if i < 0 then s[..p] else TrimRight(s[..i])
  }

  function Truncated(s: string, limit: int): string {
    if limit <= 0 then ""
    else if |s| <= limit then s
    else if limit <= |ELLIPSIS| then Repeat('.', limit)
    else Kept(s, limit - |ELLIPSIS|) + ELLIPSIS
  }

  method Truncate(s: string, limit: int) returns (r: string)
    ensures r == Truncated(s, limit)
  {
    hide IsSpace, TrimRight, Repeat;
    if limit <= 0 {
      return "";
    }
    if |s| <= limit {
      return s;
    }
    var marker := |ELLIPSIS|;
    if limit <= marker {
      return Repeat('.', limit);
    }
    var cut := s[..limit - marker];
    if IsSpace(s[|cut|]) {
      return TrimRight(cut) + ELLIPSIS;
    }
    var floor := Max(|cut| - MAX_WORD_LOOKBACK, |cut| / 2);
    var i := |cut| - 1;
    while i >= floor
      invariant floor - 1 <= i < |cut|
      invariant LastSpace(s, |cut| - 1, floor) == LastSpace(s, i, floor)
    {
      if IsSpace(cut[i]) {
        assert cut[..i] == s[..i];
        return TrimRight(cut[..i]) + ELLIPSIS;
      }
      i := i - 1;
    }
    return cut + ELLIPSIS;
  }

  // ---------- what a truncation is ----------

  /** `i` is where a cut at `p` runes breaks off: at the last white space up to `p`,
      looking back 24 runes but not past the half, or at `p` when there is none. */
  ghost predicate BreaksOff(s: string, p: nat, i: nat)
    requires i <= p < |s|
  {
    || (p - 24 <= i && p / 2 <= i && IsSpace(s[i]) && forall j | i < j <= p :: !IsSpace(s[j]))
    || (i == p && forall j | 0 <= j <= p && p - 24 <= j && p / 2 <= j :: !IsSpace(s[j]))
  }

  /** A cut of `s` at `p` runes keeps the first `k`: all up to where it breaks off,
      less the white space before that. */
  ghost predicate CutsAt(s: string, p: nat, k: nat) {
    && k <= p < |s| && (k > 0 ==> !IsSpace(s[k - 1]))
    && exists i | k <= i <= p :: BreaksOff(s, p, i) && forall j | k <= j < i :: IsSpace(s[j])
  }

  /** The kept text is the one prefix that such a cut keeps. Nothing visible is given
      up more than 24 runes or half the room before the cut; all the room is taken
      inside a word only when no white space is near enough; and otherwise the text
      stops at the last white space there. */
  lemma KeptMeaning(s: string, p: nat)
    requires p < |s|
    ensures var k := |Kept(s, p)|;
            && Kept(s, p) == s[..k] && CutsAt(s, p, k)
            && (k == p || IsSpace(s[k]))
            && (forall j | k <= j < |s| && (j < p - 24 || j < p / 2) :: IsSpace(s[j]))
            && (k == p && !IsSpace(s[p]) ==> forall j | 0 <= j < p && p - 24 <= j && p / 2 <= j :: !IsSpace(s[j]))
  {
    hide IsSpace, TrimRight;
    var k := |Kept(s, p)|;
    FloorBelow(p);
    var i := if IsSpace(s[p]) then p else LastSpace(s, p - 1, Floor(p));
    if i >= 0 {
      TrimRightSplits(s[..i]);
      assert s[..p] == s[..i] + s[i..p];
      forall j | k <= j < i ensures IsSpace(s[j]) {
        assert s[j] == s[..i][j];
      }
      assert BreaksOff(s, p, i);
    } else {
      assert BreaksOff(s, p, p);
    }
  }

  /** Only one prefix is. */
  lemma CutIsUnique(s: string, p: nat, k: nat, l: nat)
    requires CutsAt(s, p, k) && CutsAt(s, p, l)
    ensures k == l
  {
    hide IsSpace;
    var i :| k <= i <= p && BreaksOff(s, p, i) && forall j | k <= j < i :: IsSpace(s[j]);
    var h :| l <= h <= p && BreaksOff(s, p, h) && forall j | l <= j < h :: IsSpace(s[j]);
    assert i == h;
  }

  lemma FloorBelow(p: nat)
    ensures Floor(p) <= p && (p > 0 ==> Floor(p) < p)
  {
  }

  lemma FloorGrows(p: nat, q: nat)
    requires p <= q
    ensures Floor(p) <= Floor(q)
  {
  }

  /** A truncation has at most `limit` runes: the text itself if it is no longer,
      else dots up to three, and past those a cut of the text and the marker. */
  lemma TruncateMeaning(s: string, limit: int)
    ensures |Truncated(s, limit)| <= Max(limit, 0)
    ensures 0 < limit && |s| <= limit ==> Truncated(s, limit) == s
    ensures 0 < limit <= 3 && limit < |s| ==> Truncated(s, limit) == "..."[..limit]
    ensures 3 < limit < |s| ==> exists k: nat | CutsAt(s, limit - 3, k) :: Truncated(s, limit) == s[..k] + "..."
  {
    hide Kept, IsSpace, Repeat, CutsAt;
    if 3 < limit < |s| {
      KeptMeaning(s, limit - 3);
      KeptIsPrefix(s, limit - 3);
    } else if 0 < limit <= 3 {
      DotsOf(limit);
    }
  }

  lemma DotsOf(n: nat)
    requires n <= 3
    ensures Repeat('.', n) == "..."[..n]
  {
  }

  lemma TrimRightOfGap(s: string, k: nat, p: nat)
    requires k <= p <= |s| && forall j | k <= j < p :: IsSpace(s[j])
    requires k > 0 ==> !IsSpace(s[k - 1])
    ensures TrimRight(s[..p]) == s[..k]
  {
    TrimRightUnique(s[..p], k);
    assert s[..p][..k] == s[..k];
  }

  /** When less than the room is kept, only spaces separate the kept text from
      the boundary used, and no later boundary precedes the cut. */
  lemma KeptGap(s: string, p: nat) returns (i: nat)
    requires p < |s| && |Kept(s, p)| < p
    ensures |Kept(s, p)| <= i <= p && Floor(p) <= i
    ensures forall j | |Kept(s, p)| <= j <= i :: IsSpace(s[j])
    ensures forall j | i < j <= p :: !IsSpace(s[j])
  {
    var k := |Kept(s, p)|;
    i := if IsSpace(s[p]) then p else LastSpace(s, p - 1, Floor(p));
    TrimRightSplits(s[..i]);
    forall j | k <= j < i ensures IsSpace(s[j]) {
      assert s[j] == s[..i][j];
    }
  }

  lemma KeptIsPrefix(s: string, p: nat)
    requires p < |s|
    ensures |Kept(s, p)| <= p && Kept(s, p) == s[..|Kept(s, p)|]
    ensures |Kept(s, p)| > 0 ==> !IsSpace(s[|Kept(s, p)| - 1])
  {
    KeptMeaning(s, p);
  }

  /** A cut inside the gap that `KeptGap` finds keeps the same text. */
  lemma KeptInGap(s: string, k: nat, i: nat, p: nat)
    requires k < p < |s| && k <= i && Floor(p) <= i
    requires k > 0 ==> !IsSpace(s[k - 1])
    requires forall j | k <= j <= i && j < |s| :: IsSpace(s[j])
    requires forall j | i < j <= p :: !IsSpace(s[j])
    ensures Kept(s, p) == s[..k]
  {
    if p <= i {
      TrimRightOfGap(s, k, p);
    } else {
      assert IsSpace(s[i]);
      assert LastSpace(s, p - 1, Floor(p)) == i;
      TrimRightOfGap(s, k, i);
    }
  }

  /** More room never keeps less: through every word-boundary case the kept text
      grows monotonically with the cut. */
  lemma KeptMonotone(s: string, p: nat, q: nat)
    requires p <= q < |s|
    ensures Kept(s, p) <= Kept(s, q)
  {
    hide Kept, IsSpace, Floor;
    var k := |Kept(s, q)|;
    KeptIsPrefix(s, p);
    KeptIsPrefix(s, q);
    if k < p {
      var i := KeptGap(s, q);
      FloorGrows(p, q);
      KeptInGap(s, k, i, p);
    }
  }

  /** A longer limit allows every rune of a shorter truncation, as long as the
      text is cut at all. */
  lemma TruncateMonotone(s: string, m: int, n: int)
    requires m <= n < |s|
    ensures Within(Truncated(s, m), Truncated(s, n))
  {
    hide IsSpace, Kept, Repeat, Within;
    if |ELLIPSIS| < m {
      KeptMonotone(s, m - |ELLIPSIS|, n - |ELLIPSIS|);
      MarkedWithin(Kept(s, m - |ELLIPSIS|), Kept(s, n - |ELLIPSIS|));
    } else if 0 < m {
      if |ELLIPSIS| < n {
        DotsWithin(Kept(s, n - |ELLIPSIS|), m);
      } else {
        DotsWithinDots(m, n);
      }
    } else {
      EmptyWithin(Truncated(s, n));
    }
  }

  lemma EmptyWithin(s: string)
    ensures Within("", s)
  {
  }

  lemma DotsWithinDots(m: nat, n: nat)
    requires m <= n
    ensures Within(Repeat('.', m), Repeat('.', n))
  {
    assert Repeat('.', n) == Repeat('.', m) + Repeat('.', n - m);
  }

  lemma DotsWithin(k: string, m: nat)
    requires m <= |ELLIPSIS|
    ensures Within(Repeat('.', m), k + ELLIPSIS)
  {
    assert ELLIPSIS == Repeat('.', m) + Repeat('.', |ELLIPSIS| - m);
  }

  lemma MarkedWithin(a: string, b: string)
    requires a <= b
    ensures Within(a + ELLIPSIS, b + ELLIPSIS)
  {
    PrefixWithin(b, a);
  }

  // ---------- Shrink ----------

  /** The longest prefix, up to `hi` runes, that fits a screen with the marker. */
  function MarkedFit(s: string, hi: nat): (n: nat)
    requires hi <= |s|
    ensures n <= hi
    ensures n == 0 || Fits(s[..n] + ELLIPSIS)
    ensures forall m | n < m <= hi :: !Fits(s[..m] + ELLIPSIS)
  {
    if hi == 0 || Fits(s[..hi] + ELLIPSIS) then hi else MarkedFit(s, hi - 1)
  }

  function Shrunk(s: string): string {
    if Fits(s) then s
    else
      var n := MarkedFit(s, |s|);
      if n == 0 || n == |s| then "" else Truncated(s[..n + 1], n)
  }

  method Shrink(s: string) returns (r: string)
    ensures r == Shrunk(s)
  {
    hide Fits, Truncated;
    var fits := FitsScreen(s);
    if fits {
      return s;
    }
    var lo, hi := 0, Min(|s|, MAX_SEPTETS);
    ShrinkBounds(s);
    while lo < hi
      invariant 0 <= lo <= MarkedFit(s, |s|) <= hi <= |s|
      invariant lo == 0 || Fits(s[..lo] + ELLIPSIS)
    {
      var mid := (lo + hi + 1) / 2;
      var midFits := FitsScreen(s[..mid] + ELLIPSIS);
      if midFits {
        lo := mid;
      } else {
        MarkedMonotone(s, mid, MarkedFit(s, |s|));
        hi := mid - 1;
      }
    }
    if lo == 0 {
      return "";
    }
    r := Truncate(s[..lo + 1], lo);
  }

  lemma MarkedMonotone(s: string, m: nat, n: nat)
    requires m <= |s| && n <= |s|
    ensures m <= n && Fits(s[..n] + ELLIPSIS) ==> Fits(s[..m] + ELLIPSIS)
  {
    if m <= n && Fits(s[..n] + ELLIPSIS) {
      MarkedWithin(s[..m], s[..n]);
      AffordableWithin(s[..m] + ELLIPSIS, s[..n] + ELLIPSIS, 0);
    }
  }

  /** For a text that overflows, the search result leaves a rune to drop, lies
      under the screen size, and keeps at least 32 runes. */
  lemma ShrinkBounds(s: string)
    requires !Fits(s)
    ensures 32 <= MarkedFit(s, |s|) < |s|
    ensures MarkedFit(s, |s|) <= MAX_SEPTETS
  {
    var n := MarkedFit(s, |s|);
    OverflowIsLong(s);
    ShortTextFits(s[..32] + ELLIPSIS, 0);
    WholeDoesNotFitMarked(s);
    var t := s[..n] + ELLIPSIS;
    TallyBounds(AlphabetOf(t), t);
  }

  lemma OverflowIsLong(s: string)
    requires !Fits(s)
    ensures |s| > 35
  {
    if |s| <= 35 {
      ShortTextFits(s, 0);
    }
  }

  lemma WholeDoesNotFitMarked(s: string)
    requires !Fits(s)
    ensures !Fits(s[..|s|] + ELLIPSIS)
  {
    assert s[..|s|] == s;
    if Fits(s + ELLIPSIS) {
      AffordableWithin(s, s + ELLIPSIS, 0);
    }
  }

  /** Shrink's promise: the result fits whatever the encoding, and is the text
      exactly when the text fits. Otherwise it is a prefix with the marker that
      gives up nothing visible among the first 14 runes. */
  lemma ShrinkFits(s: string)
    ensures Fits(Shrunk(s))
    ensures Shrunk(s) == s <==> Fits(s)
    ensures !Fits(s) ==> exists k | 0 <= k < |s| ::
                           Shrunk(s) == s[..k] + ELLIPSIS && forall j | k <= j < 14 && j < |s| :: IsSpace(s[j])
  {
    if !Fits(s) {
      var k := ShrinkCut(s);
    }
  }

  lemma ShrinkCut(s: string) returns (k: nat)
    requires !Fits(s)
    ensures k + |ELLIPSIS| <= MarkedFit(s, |s|) < |s|
    ensures Shrunk(s) == s[..k] + ELLIPSIS && Fits(s[..k] + ELLIPSIS)
    ensures forall j | k <= j < 14 && j < |s| :: IsSpace(s[j])
  {
    hide Fits, Truncated, IsSpace;
    ShrinkBounds(s);
    var n := MarkedFit(s, |s|);
    k := KeptOfPrefix(s, n);
    MarkedMonotone(s, k, n);
  }

  lemma KeptOfPrefix(s: string, n: nat) returns (k: nat)
    requires 32 <= n < |s|
    ensures k + |ELLIPSIS| <= n && Truncated(s[..n + 1], n) == s[..k] + ELLIPSIS
    ensures k == |Kept(s[..n + 1], n - 3)|
    ensures forall j | k <= j < 14 :: IsSpace(s[j])
  {
    var u := s[..n + 1];
    KeptIsPrefix(u, n - |ELLIPSIS|);
    KeptMeaning(u, n - |ELLIPSIS|);
    k := |Kept(u, n - |ELLIPSIS|)|;
    assert u[..k] == s[..k];
    forall j | k <= j < 14 ensures IsSpace(s[j]) {
      assert u[j] == s[j];
    }
  }

  /** Exactly which words survive the cut: one that ends at `b`, before a space, is
      shown whole when three runes more would still fit with the marker. */
  lemma ShrinkKeepsWordIff(s: string, b: nat)
    requires !Fits(s) && 0 < b < |s| && IsSpace(s[b]) && !IsSpace(s[b - 1])
    ensures b + |ELLIPSIS| <= |Shrunk(s)| <==> b + 3 <= |s| && Fits(s[..b + 3] + ELLIPSIS)
    ensures b + |ELLIPSIS| <= |Shrunk(s)| ==> s[..b] <= Shrunk(s)
    ensures s[b - 1] != '.' && s[..b] <= Shrunk(s) ==> b + |ELLIPSIS| <= |Shrunk(s)|
  {
    hide Fits, Truncated, IsSpace, MarkedFit, TrimRight;
    ShrinkBounds(s);
    var n := MarkedFit(s, |s|);
    var u := s[..n + 1];
    KeptIsPrefix(u, n - 3);
    var k := KeptOfPrefix(s, n);
    assert Shrunk(s) == s[..k] + ELLIPSIS;
    if b <= n - 3 {
      KeptAtSpace(u, b);
      KeptMonotone(u, b, n - 3);
      MarkedMonotone(s, b + 3, n);
    }
    MarkedIsGreatest(s, b + 3);
    assert s[..b] <= Shrunk(s) && k < b ==> s[b - 1] == Shrunk(s)[b - 1] == '.';
  }

  lemma KeptAtSpace(s: string, b: nat)
    requires 0 < b < |s| && IsSpace(s[b]) && !IsSpace(s[b - 1])
    ensures Kept(s, b) == s[..b]
  {
    hide IsSpace;
    TrimRightUnique(s[..b], b);
  }

  lemma MarkedIsGreatest(s: string, m: nat)
    ensures MarkedFit(s, |s|) < m <= |s| ==> !Fits(s[..m] + ELLIPSIS)
    ensures MarkedFit(s, |s|) <= |s|
  {
    hide Fits;
  }

  /** What Shrink makes of an overflowing text: the longest prefix that fits with the
      marker decides the limit, and the text is cut to that limit as Truncate cuts. */
  lemma ShrinkMeaning(s: string)
    requires !Fits(s)
    ensures exists n: nat, k: nat ::
              && 3 < n < |s| && Fits(s[..n] + "...") && (forall m | n < m <= |s| :: !Fits(s[..m] + "..."))
              && CutsAt(s, n - 3, k) && Shrunk(s) == s[..k] + "..."
  {
    hide Fits, Truncated, IsSpace, CutsAt;
    ShrinkBounds(s);
    var n := MarkedFit(s, |s|);
    var k := KeptOfPrefix(s, n);
    KeptMeaning(s[..n + 1], n - 3);
    CutInPrefix(s, n - 3, n + 1, k);
  }

  lemma CutInPrefix(s: string, p: nat, n: nat, k: nat)
    requires p < n <= |s| && CutsAt(s[..n], p, k)
    ensures CutsAt(s, p, k)
  {
    hide IsSpace;
    var i :| k <= i <= p && BreaksOff(s[..n], p, i) && forall j | k <= j < i :: IsSpace(s[..n][j]);
    assert forall j | 0 <= j < n :: s[..n][j] == s[j];
    assert BreaksOff(s, p, i);
  }

  lemma ShrinkIdempotent(s: string)
    ensures Shrunk(Shrunk(s)) == Shrunk(s)
  {
    ShrinkFits(s);
  }

  /** Shrink is never maximal: the marker is paid for twice, so a cut text keeps
      at least three runes fewer than the longest prefix that fits with the
      marker. */
  lemma ShrinkNeverMaximal(s: string)
    requires !Fits(s)
    ensures var k := |Shrunk(s)| - |ELLIPSIS|;
            exists n | k + |ELLIPSIS| <= n < |s| :: Fits(s[..n] + ELLIPSIS)
  {
    ShrinkBounds(s);
    var n := MarkedFit(s, |s|);
    TruncateMeaning(s[..n + 1], n);
  }
}
