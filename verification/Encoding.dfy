/** The two wire encodings of a screen and what each can carry
    (sections 6.2.1 and 6.2.1.1 of 3GPP TS 23.038 for the GSM alphabet). */
module Encoding {
  import opened Text

  const MAX_SEPTETS: int := 182
  const MAX_UCS2_UNITS: int := 70

  datatype Alphabet = GSM7 | UCS2

  /** The GSM basic table: one septet each. */
  predicate IsBasic(c: char) {
    || c == '\n' || c == '\r' || ' ' <= c <= 'Z' || c == '_' || 'a' <= c <= 'z'
    || c == '\U{A1}' || '\U{A3}' <= c <= '\U{A5}' || c == '\U{A7}' || c == '\U{BF}'
    || '\U{C4}' <= c <= '\U{C7}' || c == '\U{C9}' || c == '\U{D1}' || c == '\U{D6}' || c == '\U{D8}'
    || c == '\U{DC}' || c == '\U{DF}' || c == '\U{E0}' || '\U{E4}' <= c <= '\U{E6}'
    || c == '\U{E8}' || c == '\U{E9}' || c == '\U{EC}' || c == '\U{F1}' || c == '\U{F2}'
    || c == '\U{F6}' || c == '\U{F8}' || c == '\U{F9}' || c == '\U{FC}'
    || c == '\U{393}' || c == '\U{394}' || c == '\U{398}' || c == '\U{39B}' || c == '\U{39E}'
    || c == '\U{3A0}' || c == '\U{3A3}' || c == '\U{3A6}' || c == '\U{3A8}' || c == '\U{3A9}'
  }

  /** The GSM extension table: an escape and a septet. */
  predicate IsExtension(c: char) {
    || c == '^' || c == '{' || c == '}' || c == '\\' || c == '[' || c == '~' || c == ']' || c == '|'
    || c == '\U{20AC}'
  }

  predicate IsGsm(c: char) {
    IsBasic(c) || IsExtension(c)
  }

  predicate AllGsm(s: string) {
    forall c | c in s :: IsGsm(c)
  }

  predicate AllBasic(s: string) {
    forall c | c in s :: IsBasic(c)
  }

  /** What one rune takes of a screen in alphabet `a`. */
  function Weight(a: Alphabet, c: char): nat {
    match a
    case GSM7 => if IsExtension(c) then 2 else 1
    case UCS2 => if c > '\U{FFFF}' then 2 else 1
  }

  function Tally(a: Alphabet, s: string): nat {
    if s == "" then 0 else Tally(a, s[..|s| - 1]) + Weight(a, s[|s| - 1])
  }

  function AlphabetOf(s: string): Alphabet {
    if AllGsm(s) then GSM7 else UCS2
  }

  function Capacity(a: Alphabet): int {
    match a
    case GSM7 => MAX_SEPTETS
    case UCS2 => MAX_UCS2_UNITS
  }

  function Cost(s: string): nat {
    Tally(AlphabetOf(s), s)
  }

  /** `s` fits one screen with `reserve` units of its own alphabet to spare. */
  predicate Affordable(s: string, reserve: int) {
    Cost(s) + reserve <= Capacity(AlphabetOf(s))
  }

  predicate Fits(s: string) {
    Affordable(s, 0)
  }

  /** `t` can be made from `s` by deleting runes and reordering the rest. */
  predicate Within(t: string, s: string) {
    multiset(t) <= multiset(s)
  }

  /** The tables are those of the standard, column by column; where its basic table
      has the escape there is nothing. */
  lemma TablesAreStandard(c: char)
    ensures IsBasic(c) <==>
            || c in {'@', '\U{A3}', '$', '\U{A5}', '\U{E8}', '\U{E9}', '\U{F9}', '\U{EC}',
                     '\U{F2}', '\U{C7}', '\n', '\U{D8}', '\U{F8}', '\r', '\U{C5}', '\U{E5}'}
            || c in {'\U{394}', '_', '\U{3A6}', '\U{393}', '\U{39B}', '\U{3A9}', '\U{3A0}', '\U{3A8}',
                     '\U{3A3}', '\U{398}', '\U{39E}', '\U{C6}', '\U{E6}', '\U{DF}', '\U{C9}'}
            || (' ' <= c <= '?' && c != '$') || c == '\U{A4}'
            || c == '\U{A1}' || 'A' <= c <= 'O'
            || 'P' <= c <= 'Z' || c in {'\U{C4}', '\U{D6}', '\U{D1}', '\U{DC}', '\U{A7}'}
            || c == '\U{BF}' || 'a' <= c <= 'o'
            || 'p' <= c <= 'z' || c in {'\U{E4}', '\U{F6}', '\U{F1}', '\U{FC}', '\U{E0}'}
    ensures IsExtension(c) <==> c in {'^', '{', '}', '\\', '[', '~', ']', '|', '\U{20AC}'}
  {
  }

  /** How many of one rune a screen holds. */
  lemma RunFitsIff(c: char, n: nat)
    ensures Fits(Repeat(c, n)) <==>
            n <= if IsBasic(c) then 182 else if IsExtension(c) then 91 else if c <= '\U{FFFF}' then 70 else 35
  {
    hide IsBasic, IsExtension;
    TallyRepeat(GSM7, c, n);
    TallyRepeat(UCS2, c, n);
    BasicIsNoExtension(c);
    if n > 0 {
      assert Repeat(c, n)[0] == c;
      assert AllGsm(Repeat(c, n)) <==> IsGsm(c);
    }
  }

  lemma BasicIsNoExtension(c: char)
    ensures !(IsBasic(c) && IsExtension(c))
  {
  }

  // ---------- the measuring code ----------

  method EncodingOf(s: string) returns (a: Alphabet)
    ensures a == AlphabetOf(s)
  {
    for i := 0 to |s|
      invariant AllGsm(s[..i])
    {
      if !IsBasic(s[i]) && !IsExtension(s[i]) {
        assert s[i] in s;
        return UCS2;
      }
    }
    assert s[..|s|] == s;
    return GSM7;
  }

  method Ucs2Units(s: string) returns (units: int)
    ensures units == Tally(UCS2, s)
  {
    units := 0;
    for i := 0 to |s|
      invariant units == Tally(UCS2, s[..i])
    {
      assert s[..i + 1][..i] == s[..i];
      if s[i] > '\U{FFFF}' {
        units := units + 2;
        continue;
      }
      units := units + 1;
    }
    assert s[..|s|] == s;
  }

  method ScreenCost(s: string) returns (cost: int, a: Alphabet)
    ensures a == AlphabetOf(s) && cost == Cost(s)
  {
    cost := 0;
    for i := 0 to |s|
      invariant AllGsm(s[..i]) && cost == Tally(GSM7, s[..i])
    {
      assert s[..i + 1][..i] == s[..i];
      if IsBasic(s[i]) {
        cost := cost + 1;
        continue;
      }
      if IsExtension(s[i]) {
        cost := cost + 2;
        continue;
      }
      assert s[i] in s;
      var units := Ucs2Units(s);
      return units, UCS2;
    }
    assert s[..|s|] == s;
    a := GSM7;
  }

  method Budget(s: string) returns (units: int)
    ensures units == Capacity(AlphabetOf(s))
  {
    var a := EncodingOf(s);
    if a == UCS2 {
      return MAX_UCS2_UNITS;
    }
    return MAX_SEPTETS;
  }

  method FitsScreen(s: string) returns (ok: bool)
    ensures ok == Fits(s)
  {
    var cost, a := ScreenCost(s);
    if a == UCS2 {
      return cost <= MAX_UCS2_UNITS;
    }
    return cost <= MAX_SEPTETS;
  }

  // ---------- arithmetic of tallies ----------

  lemma {:induction false} TallyAppend(a: Alphabet, s: string, t: string)
    ensures Tally(a, s + t) == Tally(a, s) + Tally(a, t)
  {
    if t == "" {
      assert s + t == s;
    } else {
      TallyAppend(a, s, t[..|t| - 1]);
      assert (s + t)[..|s + t| - 1] == s + t[..|t| - 1];
    }
  }

  lemma {:induction false} TallyBounds(a: Alphabet, s: string)
    ensures |s| <= Tally(a, s) <= 2 * |s|
  {
    if s != "" {
      TallyBounds(a, s[..|s| - 1]);
    }
  }

  /** Basic characters cost one unit in either alphabet. */
  lemma {:induction false} TallyOfBasic(a: Alphabet, s: string)
    requires AllBasic(s)
    ensures Tally(a, s) == |s| && AllGsm(s)
  {
    if s != "" {
      TallyOfBasic(a, s[..|s| - 1]);
      assert s[|s| - 1] in s;
    }
  }

  /** Every GSM character is in the Basic Multilingual Plane. */
  lemma {:induction false} UnitsOfGsm(s: string)
    requires AllGsm(s)
    ensures Tally(UCS2, s) == |s|
  {
    if s != "" {
      UnitsOfGsm(s[..|s| - 1]);
      assert s[|s| - 1] in s;
    }
  }

  /** A text's septets exceed its length by its extension characters. */
  function Extensions(s: string): nat {
    if s == "" then 0 else Extensions(s[..|s| - 1]) + (if IsExtension(s[|s| - 1]) then 1 else 0)
  }

  lemma {:induction false} SeptetsOf(s: string)
    ensures Tally(GSM7, s) == |s| + Extensions(s)
    ensures Extensions(s) == 0 <==> forall c | c in s :: !IsExtension(c)
  {
    if s != "" {
      SeptetsOf(s[..|s| - 1]);
      assert s == s[..|s| - 1] + [s[|s| - 1]];
    }
  }

  lemma AllGsmAppend(s: string, t: string)
    ensures AllGsm(s + t) <==> AllGsm(s) && AllGsm(t)
  {
    if AllGsm(s + t) {
      forall c | c in s ensures IsGsm(c) { assert c in s + t; }
      forall c | c in t ensures IsGsm(c) { assert c in s + t; }
    }
  }

  lemma TallyRemove(a: Alphabet, left: string, c: char, right: string)
    ensures Tally(a, left + [c] + right) == Tally(a, left + right) + Weight(a, c)
  {
    TallyAppend(a, left + [c], right);
    TallyAppend(a, left, right);
    assert (left + [c])[..|left|] == left;
  }

  lemma Cancel(a: multiset<char>, b: multiset<char>, m: multiset<char>)
    requires a + m <= b + m
    ensures a <= b
  {
    forall c: char ensures a[c] <= b[c] {
      assert (a + m)[c] <= (b + m)[c];
    }
  }

  lemma {:induction false} TallyWithin(a: Alphabet, t: string, s: string)
    requires Within(t, s)
    ensures Tally(a, t) <= Tally(a, s)
  {
    if t != "" {
      var n := |t| - 1;
      var t' := t[..n];
      assert t == t' + [t[n]];
      assert multiset(t)[t[n]] >= 1;
      assert t[n] in s;
      var i :| 0 <= i < |s| && s[i] == t[n];
      var left, right := s[..i], s[i + 1..];
      assert s == left + [t[n]] + right;
      assert multiset(t) == multiset(t') + multiset{t[n]};
      assert multiset(s) == multiset(left + right) + multiset{t[n]};
      Cancel(multiset(t'), multiset(left + right), multiset{t[n]});
      TallyWithin(a, t', left + right);
      TallyRemove(a, left, t[n], right);
    }
  }

  lemma GsmWithin(t: string, s: string)
    requires Within(t, s) && AllGsm(s)
    ensures AllGsm(t)
  {
    forall c | c in t ensures IsGsm(c) {
      assert multiset(s)[c] >= multiset(t)[c] >= 1;
      assert c in s;
    }
  }

  lemma {:induction false} TallyRepeat(a: Alphabet, c: char, n: nat)
    ensures Tally(a, Repeat(c, n)) == n * Weight(a, c)
  {
    if n > 0 {
      TallyRepeat(a, c, n - 1);
      assert Repeat(c, n)[..n - 1] == Repeat(c, n - 1);
    }
  }

  // ---------- the budget is closed under deleting runes ----------

  /** The smallest reserve for which affordability survives deletions: with
      `-k` units to spare a UCS-2 text holds at most 69 + k GSM runes besides
      the rune that forces the encoding, and 2 * (69 + k) <= 182 + k. */
  const MIN_RESERVE: int := -44

  lemma AffordableWithin(t: string, s: string, reserve: int)
    requires reserve >= MIN_RESERVE
    requires Within(t, s) && Affordable(s, reserve)
    ensures Affordable(t, reserve)
  {
    if AllGsm(s) {
      GsmWithin(t, s);
      TallyWithin(GSM7, t, s);
    } else if !AllGsm(t) {
      TallyWithin(UCS2, t, s);
    } else {
      var c :| c in s && !IsGsm(c);
      assert Within(t + [c], s);
      TallyWithin(UCS2, t + [c], s);
      TallyBounds(UCS2, t + [c]);
      TallyBounds(GSM7, t);
    }
  }

  /** Deleting runes never makes a fitting text overflow, however the deletion
      switches the encoding, exactly for reserves from -44 up. */
  lemma DeletionThreshold(reserve: int)
    ensures (forall t, s | Within(t, s) && Affordable(s, reserve) :: Affordable(t, reserve))
            <==> reserve >= MIN_RESERVE
  {
    if reserve >= MIN_RESERVE {
      forall t, s | Within(t, s) && Affordable(s, reserve) ensures Affordable(t, reserve) {
        AffordableWithin(t, s, reserve);
      }
    } else {
      DeletionCanOverflow(reserve);
    }
  }

  lemma DeletionCanOverflow(reserve: int)
    requires reserve < MIN_RESERVE
    ensures exists t, s :: Within(t, s) && Affordable(s, reserve) && !Affordable(t, reserve)
  {
    var n := MAX_UCS2_UNITS - 1 - reserve;
    var t := Repeat('^', n);
    var s := t + ['\U{4E2D}'];
    assert AllGsm(t) && !IsGsm('\U{4E2D}') && s[n] in s;
    hide IsBasic, IsExtension;
    TallyRepeat(GSM7, '^', n);
    TallyRepeat(UCS2, '^', n);
    assert s[..n] == t;
    assert Within(t, s) && Affordable(s, reserve) && !Affordable(t, reserve);
  }

  lemma PrefixWithin(s: string, t: string)
    requires t <= s
    ensures Within(t, s)
  {
    assert s == t + s[|t|..];
  }

  /** Fewer than 36 runes always fit, whatever they are. */
  lemma ShortTextFits(s: string, reserve: int)
    requires 0 <= reserve && 2 * |s| + reserve <= MAX_UCS2_UNITS
    ensures Affordable(s, reserve)
  {
    TallyBounds(AlphabetOf(s), s);
  }
}
