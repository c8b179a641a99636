/** Making untrusted text safe for one menu line: collapsing breaks, rewriting
    into the GSM alphabet, and labels. */
module Gsm {
  import opened Text
  import opened Encoding
  import opened Truncation

  /** The two notions of white space in play: the ASCII breaks OneLine removes
      and the Unicode spaces `strings.Fields` splits on. */
  datatype Gap = Breaks | Spaces

  predicate IsGap(g: Gap, c: char) {
    match g
    case Breaks => '\t' <= c <= '\r' || c == ' '
    case Spaces => IsSpace(c)
  }

  predicate EndsInGap(g: Gap, s: string) {
    s != "" && IsGap(g, s[|s| - 1])
  }

  /** `strings.FieldsFunc`: the maximal runs of runes that are not gaps. */
  function Fields(g: Gap, s: string): (words: seq<string>)
    ensures s != "" && !EndsInGap(g, s) ==> words != []
    ensures forall i | 0 <= i < |words| :: words[i] != "" && forall c | c in words[i] :: c in s && !IsGap(g, c)
  {
    if s == "" then []
    else
      var t, c := s[..|s| - 1], s[|s| - 1];
      assert s == t + [c];
      var words := Fields(g, t);
      if IsGap(g, c) then words
      else if t == "" || EndsInGap(g, t) then words + [[c]]
      else words[..|words| - 1] + [words[|words| - 1] + [c]]
  }

  /** The fields joined by single spaces, computed left to right. */
  function Collapse(g: Gap, s: string): string {
    if s == "" then ""
    else
      var t, c := s[..|s| - 1], s[|s| - 1];
      var r := Collapse(g, t);
      if IsGap(g, c) then r
      else if EndsInGap(g, t) && r != "" then r + [' ', c]
      else r + [c]
  }

  function OneLine(s: string): string {
    Collapse(Breaks, s)
  }

  lemma {:induction false} JoinAppend(words: seq<string>, word: string)
    ensures Join(words + [word], " ") == if words == [] then word else Join(words, " ") + " " + word
  {
    if |words| > 1 {
      JoinAppend(words[1..], word);
      assert (words + [word])[1..] == words[1..] + [word];
    } else if |words| == 1 {
      assert (words + [word])[1..] == [word];
    }
  }

  /** A rune that continues a word goes to the end of the last field. */
  lemma JoinExtend(init: seq<string>, word: string, c: char)
    ensures Join(init + [word + [c]], " ") == Join(init + [word], " ") + [c]
  {
    hide Join;
    JoinAppend(init, word);
    JoinAppend(init, word + [c]);
    AppendLast(Join(init, " ") + " ", word, c);
  }

  lemma AppendLast(before: string, word: string, c: char)
    ensures before + (word + [c]) == before + word + [c]
  {
  }

  /** The left-to-right form is `strings.Join(strings.FieldsFunc(s, gap), " ")`. */
  lemma {:induction false} CollapseJoinsFields(g: Gap, s: string)
    ensures Collapse(g, s) == Join(Fields(g, s), " ")
    ensures Collapse(g, s) == "" <==> Fields(g, s) == []
  {
    hide IsGap, Join, EndsInGap;
    if s == "" {
      NothingJoined();
    } else {
      var t, c := s[..|s| - 1], s[|s| - 1];
      CollapseJoinsFields(g, t);
      var words := Fields(g, t);
      if !IsGap(g, c) {
        if t == "" || EndsInGap(g, t) {
          JoinAppend(words, [c]);
        } else {
          var n := |words| - 1;
          assert words == words[..n] + [words[n]];
          JoinExtend(words[..n], words[n], c);
        }
      }
    }
  }

  lemma NothingJoined()
    ensures Join([], " ") == ""
  {
  }

  /** The collapsed text, with the space that the next word would need. */
  function Pending(g: Gap, s: string): string {
    Collapse(g, s) + if EndsInGap(g, s) && Collapse(g, s) != "" then " " else ""
  }

  lemma {:induction false} PendingGrows(g: Gap, s: string, t: string)
    ensures Pending(g, s) <= Pending(g, s + t)
  {
    if t == "" {
      assert s + t == s;
    } else {
      PendingGrows(g, s, t[..|t| - 1]);
      var u := s + t[..|t| - 1];
      assert s + t == u + [t[|t| - 1]];
      assert Pending(g, u) <= Pending(g, u + [t[|t| - 1]]);
    }
  }

  /** A word after `s` lands after what is pending. */
  lemma CollapseMarked(s: string)
    ensures OneLine(s + ELLIPSIS) == Pending(Breaks, s) + ELLIPSIS
  {
    var a := s + ['.'];
    var b := a + ['.'];
    assert s + ELLIPSIS == b + ['.'];
    assert a[..|s|] == s && b[..|a|] == a && (b + ['.'])[..|b|] == b;
    assert OneLine(a) == Pending(Breaks, s) + ['.'];
    assert OneLine(b) == OneLine(a) + ['.'];
    assert OneLine(b + ['.']) == OneLine(b) + ['.'];
  }

  /** A longer marked prefix has every rune of a shorter one, on one line too. */
  lemma OneLineMarkedMonotone(a: string, b: string)
    requires a <= b
    ensures Within(OneLine(a + ELLIPSIS), OneLine(b + ELLIPSIS))
  {
    assert b == a + b[|a|..];
    PendingGrows(Breaks, a, b[|a|..]);
    CollapseMarked(a);
    CollapseMarked(b);
    MarkedWithin(Pending(Breaks, a), Pending(Breaks, b));
  }

  /** Collapsed text has no gap rune but single inner spaces, so it cannot
      start a new menu line. */
  lemma {:induction false} CollapseIsClean(g: Gap, s: string)
    ensures forall c | c in Collapse(g, s) :: c == ' ' || (c in s && !IsGap(g, c))
    ensures var r := Collapse(g, s); r != "" ==> !IsGap(g, r[0]) && !IsGap(g, r[|r| - 1])
    ensures |Collapse(g, s)| <= |s|
  {
    hide IsGap;
    if s != "" {
      CollapseIsClean(g, s[..|s| - 1]);
      assert s == s[..|s| - 1] + [s[|s| - 1]];
      PendingShorter(g, s[..|s| - 1]);
    }
  }

  lemma {:induction false} PendingShorter(g: Gap, s: string)
    ensures |Pending(g, s)| <= |s|
  {
    if s != "" {
      PendingShorter(g, s[..|s| - 1]);
    }
  }

  lemma CollapseSnoc(g: Gap, t: string, c: char)
    ensures Collapse(g, t + [c]) ==
            if IsGap(g, c) then Collapse(g, t) else Pending(g, t) + [c]
  {
    hide IsGap;
    assert (t + [c])[..|t|] == t;
  }

  lemma {:induction false} CollapseIdempotent(g: Gap, s: string)
    ensures Collapse(g, Collapse(g, s)) == Collapse(g, s)
  {
    if s != "" {
      var t, c := s[..|s| - 1], s[|s| - 1];
      CollapseIdempotent(g, t);
      if !IsGap(g, c) {
        AppendWord(g, t, c);
      }
    }
  }

  /** Collapsing again adds the next word's first rune in the same place. */
  lemma AppendWord(g: Gap, t: string, c: char)
    requires Collapse(g, Collapse(g, t)) == Collapse(g, t) && !IsGap(g, c)
    ensures Collapse(g, Pending(g, t) + [c]) == Pending(g, t) + [c]
  {
    var r := Collapse(g, t);
    CollapseIsClean(g, t);
    CollapseSnoc(g, r, ' ');
    CollapseSnoc(g, Pending(g, t), c);
    if Pending(g, t) != r {
      assert Pending(g, t) == r + [' '];
    }
  }

  /** Words with gaps before, between and after them. */
  function Woven(gaps: seq<string>, words: seq<string>): string
    requires |gaps| == |words| + 1
  {
    if words == [] then gaps[0]
    else
      var n := |words|;
      Woven(gaps[..n], words[..n - 1]) + words[n - 1] + gaps[n]
  }

  /** Every text is words without a gap rune, kept apart by gaps. */
  ghost predicate AreWords(g: Gap, gaps: seq<string>, words: seq<string>) {
    && |gaps| == |words| + 1
    && (forall i | 0 <= i < |gaps| :: forall c | c in gaps[i] :: IsGap(g, c))
    && (forall i | 0 < i < |words| :: gaps[i] != "")
    && (forall i | 0 <= i < |words| :: words[i] != "" && forall c | c in words[i] :: !IsGap(g, c))
  }

  /** What collapsing is: of a text made of words and gaps it leaves the words,
      joined by single spaces. */
  lemma {:induction false} CollapseIsJoin(g: Gap, gaps: seq<string>, words: seq<string>)
    requires AreWords(g, gaps, words)
    ensures Collapse(g, Woven(gaps, words)) == Join(words, " ")
    ensures Join(words, " ") == "" <==> words == []
    decreases |words|
  {
    hide IsGap, Collapse, Join;
    if words == [] {
      NothingJoined();
      CollapseGap(g, "", gaps[0]);
      assert "" + gaps[0] == gaps[0];
      NothingCollapsed(g);
    } else {
      var n := |words|;
      var t := Woven(gaps[..n], words[..n - 1]);
      FewerWords(g, gaps, words);
      CollapseIsJoin(g, gaps[..n], words[..n - 1]);
      CollapseWord(g, t, words[n - 1]);
      CollapseGap(g, t + words[n - 1], gaps[n]);
      JoinAppend(words[..n - 1], words[n - 1]);
      assert words == words[..n - 1] + [words[n - 1]];
      if n > 1 {
        WovenEndsInGap(g, gaps[..n], words[..n - 1]);
      }
    }
  }

  lemma FewerWords(g: Gap, gaps: seq<string>, words: seq<string>)
    requires AreWords(g, gaps, words) && words != []
    ensures AreWords(g, gaps[..|words|], words[..|words| - 1])
  {
    hide IsGap;
  }

  lemma WovenEndsInGap(g: Gap, gaps: seq<string>, words: seq<string>)
    requires |gaps| == |words| + 1 && words != []
    requires gaps[|words|] != "" && forall c | c in gaps[|words|] :: IsGap(g, c)
    ensures EndsInGap(g, Woven(gaps, words))
  {
    hide IsGap;
    var gap := gaps[|words|];
    assert gap[|gap| - 1] in gap;
  }

  lemma NothingCollapsed(g: Gap)
    ensures Collapse(g, "") == ""
  {
  }

  lemma {:induction false} CollapseGap(g: Gap, t: string, gap: string)
    requires forall c | c in gap :: IsGap(g, c)
    ensures Collapse(g, t + gap) == Collapse(g, t)
  {
    hide IsGap, Collapse;
    if gap == "" {
      assert t + gap == t;
    } else {
      var n := |gap| - 1;
      assert gap[n] in gap && forall c | c in gap[..n] :: c in gap;
      CollapseGap(g, t, gap[..n]);
      assert t + gap == t + gap[..n] + [gap[n]];
      CollapseSnoc(g, t + gap[..n], gap[n]);
    }
  }

  lemma {:induction false} CollapseWord(g: Gap, t: string, word: string)
    requires word != "" && forall c | c in word :: !IsGap(g, c)
    ensures Collapse(g, t + word) == Pending(g, t) + word && !EndsInGap(g, t + word)
  {
    hide IsGap, Collapse;
    var n := |word| - 1;
    assert word[n] in word && forall c | c in word[..n] :: c in word;
    assert t + word == t + word[..n] + [word[n]];
    CollapseSnoc(g, t + word[..n], word[n]);
    if n == 0 {
      assert t + word[..0] == t && word == [word[0]];
    } else {
      CollapseWord(g, t, word[..n]);
      assert Pending(g, t) + word == Pending(g, t) + word[..n] + [word[n]];
      assert Collapse(g, t + word[..n]) + "" == Collapse(g, t + word[..n]);
    }
  }

  /** The breaks are the six of ASCII. */
  lemma BreaksAre(c: char)
    ensures IsGap(Breaks, c) <==> c in {'\t', '\n', '\U{0B}', '\U{0C}', '\r', ' '}
  {
  }

  lemma OneLineIsOneLine(s: string)
    ensures '\n' !in OneLine(s)
    ensures OneLine(OneLine(s)) == OneLine(s)
    ensures AllGsm(s) ==> AllGsm(OneLine(s))
  {
    CollapseIsClean(Breaks, s);
    CollapseIdempotent(Breaks, s);
  }

  /** Collapsing white space loses no visible rune. */
  lemma {:induction false} CollapseKeepsVisible(g: Gap, s: string)
    ensures Solid(Collapse(g, s)) == Solid(s)
  {
    hide IsSpace, IsGap;
    if s != "" {
      var t, c := s[..|s| - 1], s[|s| - 1];
      var r := Collapse(g, t);
      CollapseKeepsVisible(g, t);
      GapIsSpace(g, c);
      assert (r + [c])[..|r|] == r;
      SpaceIsSpace();
      assert r + [' ', c] == r + [' '] + [c];
      assert (r + [' '])[..|r|] == r && (r + [' '] + [c])[..|r| + 1] == r + [' '];
    }
  }

  lemma GapIsSpace(g: Gap, c: char)
    ensures IsGap(g, c) ==> IsSpace(c)
  {
  }

  lemma SpaceIsSpace()
    ensures IsSpace(' ')
  {
  }

  // ---------- ToGSM ----------

  /** What stands in for a rune outside the GSM alphabet. */
  function Transliteration(c: char): (r: string)
    ensures AllBasic(r)
  {
    if '\U{2018}' <= c <= '\U{2019}' || c == '\U{201B}' || c == '\U{2032}' then "'"
    else if c == '\U{201A}' then ","
    else if '\U{201C}' <= c <= '\U{201F}' || c == '\U{AB}' || c == '\U{BB}' || c == '\U{2033}' then "\""
    else if '\U{2012}' <= c <= '\U{2014}' || c == '\U{2212}' then "-"
    else if c == '\U{2026}' then "..."
    else if c == '\U{2022}' then "*"
    else if c == '\U{B7}' then "."
    else if c == '\U{2030}' then "%"
    else if '\U{E1}' <= c <= '\U{E3}' || c == '\U{E5}' || c == '\U{101}' then "a"
    else if '\U{E9}' <= c <= '\U{EB}' || c == '\U{113}' then "e"
    else if '\U{ED}' <= c <= '\U{EF}' || c == '\U{12B}' then "i"
    else if '\U{F3}' <= c <= '\U{F5}' || c == '\U{14D}' then "o"
    else if '\U{FA}' <= c <= '\U{FB}' || c == '\U{16B}' then "u"
    else if c == '\U{E7}' then "c"
    else if c == '\U{161}' then "s"
    else if c == '\U{17E}' then "z"
    else if c == '\U{FD}' then "y"
    else if '\U{C1}' <= c <= '\U{C3}' || c == '\U{100}' then "A"
    else if c == '\U{C8}' || '\U{CA}' <= c <= '\U{CB}' then "E"
    else if '\U{CD}' <= c <= '\U{CF}' then "I"
    else if '\U{D3}' <= c <= '\U{D5}' then "O"
    else if '\U{DA}' <= c <= '\U{DB}' then "U"
    else if c == '\U{A0}' || c == '\t' then " "
    else if c == '\U{200B}' || c == '\U{FE0F}' then ""
    // A rune outside the table leaves a space, so words do not run together.
    else " "
  }

  function Rewritten(s: string): string {
    if s == "" then ""
    else
      var c := s[|s| - 1];
      Rewritten(s[..|s| - 1]) + if IsGsm(c) then [c] else Transliteration(c)
  }

  function InGsm(s: string): string {
    if AllGsm(s) then s else Collapse(Spaces, Rewritten(s))
  }

  method ToGSM(s: string) returns (r: string)
    ensures r == InGsm(s)
  {
    var a := EncodingOf(s);
    if a == GSM7 {
      return s;
    }
    var b := "";
    for i := 0 to |s|
      invariant b == Rewritten(s[..i])
    {
      assert s[..i + 1][..i] == s[..i];
      var runeAlphabet := EncodingOf([s[i]]);
      assert s[i] in [s[i]];
      if runeAlphabet == GSM7 {
        b := b + [s[i]];
        continue;
      }
      b := b + Transliteration(s[i]);
    }
    assert s[..|s|] == s;
    CollapseJoinsFields(Spaces, b);
    return Join(Fields(Spaces, b), " ");
  }

  lemma {:induction false} RewrittenIsGsm(s: string)
    ensures AllGsm(Rewritten(s))
    ensures (forall c | c in s :: !IsExtension(c)) ==> AllBasic(Rewritten(s))
  {
    if s != "" {
      RewrittenIsGsm(s[..|s| - 1]);
      assert s == s[..|s| - 1] + [s[|s| - 1]];
    }
  }

  lemma {:induction false} RewrittenGsmIsSame(s: string)
    requires AllGsm(s)
    ensures Rewritten(s) == s
  {
    hide IsGsm, Transliteration;
    if s != "" {
      var t := s[..|s| - 1];
      assert s == t + [s[|s| - 1]];
      RewrittenGsmIsSame(t);
    }
  }

  /** ToGSM always lands in the GSM alphabet, leaves GSM text alone, and changes
      nothing the second time. It brings in no extension character, and shows
      every GSM rune and every transliteration. */
  lemma ToGSMIsGsm(s: string)
    ensures AllGsm(InGsm(s))
    ensures InGsm(s) == s <==> AllGsm(s)
    ensures InGsm(InGsm(s)) == InGsm(s)
    ensures (forall c | c in s :: !IsExtension(c)) ==> AllBasic(InGsm(s))
    ensures Solid(InGsm(s)) == Solid(Rewritten(s))
  {
    RewrittenIsGsm(s);
    CollapseIsClean(Spaces, Rewritten(s));
    CollapseKeepsVisible(Spaces, Rewritten(s));
    if AllGsm(s) {
      RewrittenGsmIsSame(s);
    }
  }

  /** What stands in for what: quotation marks, dashes and dots for their plain
      forms, accented letters for their base letter, the odd white space for a
      space, two invisible runes for nothing, and a space for all else. */
  lemma TransliterationIs(c: char)
    ensures c in {'\U{2018}', '\U{2019}', '\U{201B}', '\U{2032}'} ==> Transliteration(c) == "'"
    ensures c in {'\U{201C}', '\U{201D}', '\U{201E}', '\U{201F}', '\U{AB}', '\U{BB}', '\U{2033}'} ==>
              Transliteration(c) == "\""
    ensures c in {'\U{2012}', '\U{2013}', '\U{2014}', '\U{2212}'} ==> Transliteration(c) == "-"
    ensures c == '\U{201A}' ==> Transliteration(c) == ","
    ensures c == '\U{2026}' ==> Transliteration(c) == "..."
    ensures c == '\U{2022}' ==> Transliteration(c) == "*"
    ensures c == '\U{B7}' ==> Transliteration(c) == "."
    ensures c == '\U{2030}' ==> Transliteration(c) == "%"
    ensures c in {'\U{E1}', '\U{E2}', '\U{E3}', '\U{E5}', '\U{101}'} ==> Transliteration(c) == "a"
    ensures c in {'\U{E9}', '\U{EA}', '\U{EB}', '\U{113}'} ==> Transliteration(c) == "e"
    ensures c in {'\U{ED}', '\U{EE}', '\U{EF}', '\U{12B}'} ==> Transliteration(c) == "i"
    ensures c in {'\U{F3}', '\U{F4}', '\U{F5}', '\U{14D}'} ==> Transliteration(c) == "o"
    ensures c in {'\U{FA}', '\U{FB}', '\U{16B}'} ==> Transliteration(c) == "u"
    ensures c == '\U{E7}' ==> Transliteration(c) == "c"
    ensures c == '\U{161}' ==> Transliteration(c) == "s"
    ensures c == '\U{17E}' ==> Transliteration(c) == "z"
    ensures c == '\U{FD}' ==> Transliteration(c) == "y"
    ensures c in {'\U{C1}', '\U{C2}', '\U{C3}', '\U{100}'} ==> Transliteration(c) == "A"
    ensures c in {'\U{C8}', '\U{CA}', '\U{CB}'} ==> Transliteration(c) == "E"
    ensures c in {'\U{CD}', '\U{CE}', '\U{CF}'} ==> Transliteration(c) == "I"
    ensures c in {'\U{D3}', '\U{D4}', '\U{D5}'} ==> Transliteration(c) == "O"
    ensures c in {'\U{DA}', '\U{DB}'} ==> Transliteration(c) == "U"
    ensures Transliteration(c) == "" <==> c in {'\U{200B}', '\U{FE0F}'}
    ensures '\U{AB}' <= c < '\U{17F}' || '\U{2012}' <= c <= '\U{2033}' || c in {'\U{200B}', '\U{2212}', '\U{FE0F}'}
            || Transliteration(c) == " "
  {
  }

  lemma {:induction false} RewrittenAppend(s: string, t: string)
    ensures Rewritten(s + t) == Rewritten(s) + Rewritten(t)
  {
    hide IsGsm, Transliteration;
    if t == "" {
      assert s + t == s;
    } else {
      RewrittenAppend(s, t[..|t| - 1]);
      assert (s + t)[..|s + t| - 1] == s + t[..|t| - 1];
    }
  }

  /** A rune outside the alphabet between two words: what stands in for it joins
      them, or a space keeps them apart. */
  lemma ForeignRuneBetweenWords(a: string, c: char, b: string)
    requires a != "" && b != "" && AllGsm(a) && AllGsm(b) && !IsGsm(c)
    requires forall d | d in a + b :: !IsSpace(d)
    ensures InGsm(a + [c] + b) == a + Transliteration(c) + b
    ensures (forall d | d in Transliteration(c) :: !IsSpace(d)) || Transliteration(c) == " "
  {
    hide IsBasic, IsExtension, IsSpace, Collapse, Transliteration;
    var s, r := a + [c] + b, Transliteration(c);
    assert c in s && !AllGsm(s);
    RewrittenAppend(a + [c], b);
    RewrittenAppend(a, [c]);
    RewrittenGsmIsSame(a);
    RewrittenGsmIsSame(b);
    RewrittenOne(c);
    StandInIsWordOrSpace(c);
    if r == " " {
      TwoWords(a, b);
    } else {
      CollapseWord(Spaces, "", a + r + b);
      NothingCollapsed(Spaces);
      assert "" + (a + r + b) == a + r + b;
    }
  }

  lemma RewrittenOne(c: char)
    requires !IsGsm(c)
    ensures Rewritten([c]) == Transliteration(c)
  {
    hide IsGsm, Transliteration;
    assert [c][..0] == "";
    assert "" + Transliteration(c) == Transliteration(c);
  }

  lemma StandInIsWordOrSpace(c: char)
    ensures Transliteration(c) == " " || forall d | d in Transliteration(c) :: !IsSpace(d)
  {
  }

  lemma TwoWords(a: string, b: string)
    requires a != "" && b != "" && forall d | d in a + b :: !IsSpace(d)
    ensures Collapse(Spaces, a + " " + b) == a + " " + b
  {
    hide IsSpace, Collapse;
    SpaceIsSpace();
    NothingCollapsed(Spaces);
    assert forall d | d in a :: d in a + b;
    assert forall d | d in b :: d in a + b;
    CollapseWord(Spaces, "", a);
    assert "" + a == a;
    CollapseGap(Spaces, a, " ");
    CollapseWord(Spaces, a + " ", b);
    assert EndsInGap(Spaces, a + " ");
  }

  // ---------- Label ----------

  function LabelOf(s: string, limit: int, fallback: string): string {
    var out := TrimSpace(OneLine(InGsm(s)));
    if |out| < 2 then Truncated(fallback, limit) else Truncated(out, limit)
  }

  method Label(s: string, limit: int, fallback: string) returns (r: string)
    ensures r == LabelOf(s, limit, fallback)
  {
    var gsm := ToGSM(s);
    var out := TrimSpace(OneLine(gsm));
    if |out| < 2 {
      r := Truncate(fallback, limit);
    } else {
      r := Truncate(out, limit);
    }
  }

  /** A label is at most `limit` runes of GSM text without a line break, so a
      remote name can neither re-encode a screen nor add a line to a menu. It
      is free of extension characters when its sources are. */
  lemma LabelIsSafe(s: string, limit: int, fallback: string)
    requires AllBasic(fallback) && '\n' !in fallback
    ensures var r := LabelOf(s, limit, fallback);
            |r| <= Max(limit, 0) && AllGsm(r) && '\n' !in r
    ensures (forall c | c in s :: !IsExtension(c)) ==> AllBasic(LabelOf(s, limit, fallback))
  {
    ToGSMIsGsm(s);
    var line := OneLine(InGsm(s));
    OneLineIsOneLine(InGsm(s));
    CollapseIsClean(Breaks, InGsm(s));
    var out := TrimSpace(line);
    TrimIsSub(line);
    TruncateMeaning(out, limit);
    TruncateMeaning(fallback, limit);
    TruncateMembers(out, limit);
    TruncateMembers(fallback, limit);
  }

  /** Which text a label is cut from: the source's own visible runes, in order and
      on one line, when it has two at least, and else the fallback. */
  lemma LabelIs(s: string, limit: int, fallback: string)
    ensures |Solid(Rewritten(s))| < 2 ==> LabelOf(s, limit, fallback) == Truncated(fallback, limit)
    ensures |Solid(Rewritten(s))| >= 2 ==>
              exists out :: LabelOf(s, limit, fallback) == Truncated(out, limit)
                            && Solid(out) == Solid(Rewritten(s)) && '\n' !in out
  {
    hide Truncated, IsSpace, Solid, Collapse, Rewritten, TrimLeft, TrimRight;
    var line := OneLine(InGsm(s));
    var out := TrimSpace(line);
    OneLineIsOneLine(InGsm(s));
    TrimIsSub(line);
    SolidOfTrimmed(line);
    CollapseKeepsVisible(Breaks, InGsm(s));
    ToGSMIsGsm(s);
    TwoVisible(line);
  }

  /** A trimmed text shows two runes exactly when it has two. */
  lemma TwoVisible(s: string)
    ensures |TrimSpace(s)| < 2 <==> |Solid(TrimSpace(s))| < 2
  {
    hide IsSpace;
    var t := TrimSpace(s);
    SolidIsShorter(t);
    if |t| >= 2 {
      TrimmedEnds(s);
      var m := t[1..|t| - 1];
      assert t == [t[0]] + m + [t[|t| - 1]];
      SolidAppend([t[0]] + m, [t[|t| - 1]]);
      SolidAppend([t[0]], m);
      assert [t[0]][..0] == "" && [t[|t| - 1]][..0] == "";
    }
  }

  lemma {:induction false} SolidIsShorter(s: string)
    ensures |Solid(s)| <= |s|
  {
    hide IsSpace;
    if s != "" {
      SolidIsShorter(s[..|s| - 1]);
    }
  }

  lemma TrimIsSub(s: string)
    ensures forall c | c in TrimSpace(s) :: c in s
  {
    TrimLeftSplits(s);
    TrimRightSplits(TrimLeft(s));
  }

  lemma TruncateMembers(s: string, limit: int)
    ensures forall c | c in Truncated(s, limit) :: c in s || c == '.'
  {
    if |ELLIPSIS| < limit < |s| {
      KeptIsPrefix(s, limit - |ELLIPSIS|);
    }
  }
}
