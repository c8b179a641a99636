/** Text as sequences of code points, with the pieces of Go's `strings` and
    `unicode` packages that the screen code relies on. */
module Text {

  function Repeat(c: char, n: nat): (s: string)
    ensures |s| == n && forall i | 0 <= i < n :: s[i] == c
  {
    seq(n, i => c)
  }

  /** Go's `unicode.IsSpace`. */
  predicate IsSpace(c: char) {
    || '\t' <= c <= '\r' || c == ' ' || c == '\U{85}' || c == '\U{A0}' || c == '\U{1680}'
    || '\U{2000}' <= c <= '\U{200A}' || c == '\U{2028}' || c == '\U{2029}' || c == '\U{202F}'
    || c == '\U{205F}' || c == '\U{3000}'
  }

  /** White space by its kinds: six control characters, the two plain spaces, the
      spaces of typesetting, two scripts' own, and the line and paragraph marks. */
  lemma SpacesAre(c: char)
    ensures IsSpace(c) <==>
            || c in {'\t', '\n', '\U{B}', '\U{C}', '\r', '\U{85}'} || c in {' ', '\U{A0}'}
            || c in {'\U{2000}', '\U{2001}', '\U{2002}', '\U{2003}', '\U{2004}', '\U{2005}', '\U{2006}', '\U{2007}',
                     '\U{2008}', '\U{2009}', '\U{200A}', '\U{202F}', '\U{205F}'}
            || c in {'\U{1680}', '\U{3000}'} || c in {'\U{2028}', '\U{2029}'}
  {
  }

  predicate AllSpace(s: string) {
    forall i | 0 <= i < |s| :: IsSpace(s[i])
  }

  function Min(a: int, b: int): int {
    if a <= b then a else b
  }

  function Max(a: int, b: int): int {
    if a >= b then a else b
  }

  /** `strings.TrimLeftFunc(s, unicode.IsSpace)`. */
  function TrimLeft(s: string): (r: string)
    ensures |r| <= |s|
    ensures r != "" ==> !IsSpace(r[0])
  {
    if s != "" && IsSpace(s[0]) then TrimLeft(s[1..]) else s
  }

  /** What TrimLeft drops is all space. */
  lemma {:induction false} TrimLeftSplits(s: string)
    ensures var r := TrimLeft(s); r == s[|s| - |r|..]
    ensures forall i | 0 <= i < |s| - |TrimLeft(s)| :: IsSpace(s[i])
  {
    if s != "" && IsSpace(s[0]) {
      TrimLeftSplits(s[1..]);
      forall i | 1 <= i < |s| - |TrimLeft(s)| ensures IsSpace(s[i]) {
        assert s[i] == s[1..][i - 1];
      }
    }
  }

  /** `strings.TrimRightFunc(s, unicode.IsSpace)`. */
  function TrimRight(s: string): (r: string)
    ensures |r| <= |s|
    ensures r != "" ==> !IsSpace(r[|r| - 1])
  {
    if s != "" && IsSpace(s[|s| - 1]) then TrimRight(s[..|s| - 1]) else s
  }

  /** What TrimRight drops is all space. */
  lemma {:induction false} TrimRightSplits(s: string)
    ensures var r := TrimRight(s); r == s[..|r|]
    ensures forall i | |TrimRight(s)| <= i < |s| :: IsSpace(s[i])
  {
    if s != "" && IsSpace(s[|s| - 1]) {
      TrimRightSplits(s[..|s| - 1]);
    }
  }

  function TrimSpace(s: string): string {
    TrimRight(TrimLeft(s))
  }

  /** Trimming is determined by what it leaves: a prefix that does not end in
      a space, followed by spaces only. */
  lemma TrimRightUnique(s: string, k: nat)
    requires k <= |s| && forall i | k <= i < |s| :: IsSpace(s[i])
    requires k > 0 ==> !IsSpace(s[k - 1])
    ensures TrimRight(s) == s[..k]
  {
    TrimRightSplits(s);
    var t := TrimRight(s);
    assert t != "" ==> t[|t| - 1] == s[|t| - 1];
  }

  function Concat(parts: seq<string>): string {
    if parts == [] then "" else Concat(parts[..|parts| - 1]) + parts[|parts| - 1]
  }

  lemma ConcatCons(head: string, tail: seq<string>)
    ensures Concat([head] + tail) == head + Concat(tail)
  {
    if tail == [] {
      assert Concat([head] + tail) == Concat([]) + head;
    } else {
      ConcatCons(head, tail[..|tail| - 1]);
      assert ([head] + tail)[..|tail|] == [head] + tail[..|tail| - 1];
    }
  }

  lemma ConcatSnoc(parts: seq<string>, last: string)
    ensures Concat([]) == "" && Concat(parts + [last]) == Concat(parts) + last
  {
    assert (parts + [last])[..|parts|] == parts;
  }

  lemma ConcatAppend(a: seq<string>, b: seq<string>)
    ensures Concat(a + b) == Concat(a) + Concat(b)
  {
    if b == [] {
      assert a + b == a;
    } else {
      ConcatAppend(a, b[..|b| - 1]);
      assert (a + b)[..|a + b| - 1] == a + b[..|b| - 1];
    }
  }

  /** The visible runes of `s`, in order. */
  function Solid(s: string): (r: string)
    ensures forall i | 0 <= i < |r| :: !IsSpace(r[i])
  {
    if s == "" then ""
    else Solid(s[..|s| - 1]) + (if IsSpace(s[|s| - 1]) then "" else [s[|s| - 1]])
  }

  lemma SolidAppend(a: string, b: string)
    ensures Solid(a + b) == Solid(a) + Solid(b)
  {
    if b == "" {
      assert a + b == a;
    } else {
      SolidAppend(a, b[..|b| - 1]);
      assert (a + b)[..|a + b| - 1] == a + b[..|b| - 1];
    }
  }

  lemma {:induction false} SolidOfSpace(s: string)
    requires AllSpace(s)
    ensures Solid(s) == ""
  {
    if s != "" {
      SolidOfSpace(s[..|s| - 1]);
    }
  }

  lemma {:induction false} SolidMembers(s: string, c: char)
    ensures c in Solid(s) <==> c in s && !IsSpace(c)
  {
    if s != "" {
      SolidMembers(s[..|s| - 1], c);
      assert s == s[..|s| - 1] + [s[|s| - 1]];
    }
  }

  /** Space around a text does not show. */
  lemma SolidOfGap(left: string, s: string, right: string)
    requires AllSpace(left) && AllSpace(right)
    ensures Solid(left + s + right) == Solid(s)
  {
    SolidAppend(left + s, right);
    SolidAppend(left, s);
    SolidOfSpace(left);
    SolidOfSpace(right);
  }

  lemma SolidOfTrimmed(s: string)
    ensures Solid(TrimSpace(s)) == Solid(s)
  {
    hide IsSpace, Solid;
    var l := TrimLeft(s);
    var r := TrimRight(l);
    TrimLeftSplits(s);
    TrimRightSplits(l);
    assert s == s[..|s| - |l|] + r + l[|r|..];
    SolidOfGap(s[..|s| - |l|], r, l[|r|..]);
  }

  lemma TrimParts(s: string) returns (left: string, right: string)
    ensures AllSpace(left) && AllSpace(right) && s == left + TrimSpace(s) + right
  {
    hide IsSpace;
    TrimLeftSplits(s);
    var l := TrimLeft(s);
    TrimRightSplits(l);
    var r := TrimRight(l);
    left, right := s[..|s| - |l|], l[|r|..];
  }

  lemma TrimmedEnds(s: string)
    ensures var t := TrimSpace(s);
            (t == "" <==> AllSpace(s)) && (t != "" ==> !IsSpace(t[0]) && !IsSpace(t[|t| - 1]))
  {
    hide IsSpace;
    var l := TrimLeft(s);
    TrimLeftSplits(s);
    TrimRightSplits(l);
    var t := TrimRight(l);
    if l != "" {
      assert l[0] == s[|s| - |l|];
      assert t != "" ==> t[0] == l[0];
    }
  }

  lemma TrimKeeps(t: string)
    requires t != "" && !IsSpace(t[0]) && !IsSpace(t[|t| - 1])
    ensures TrimSpace(t) == t
  {
    hide IsSpace;
  }

  predicate Trimmed(s: string) {
    s != "" ==> !IsSpace(s[0]) && !IsSpace(s[|s| - 1])
  }

  lemma PaddedTrims(left: string, s: string, right: string)
    requires AllSpace(left) && AllSpace(right) && Trimmed(s)
    ensures TrimSpace(left + s + right) == s && TrimSpace(s) == s
  {
    hide IsSpace;
    if s == "" {
      assert AllSpace(left + "" + right);
      TrimmedEnds(left + "" + right);
    } else {
      TrimKeeps(s);
      LeftTrims(left, s + right);
      assert left + (s + right) == left + s + right;
      TrimRightUnique(s + right, |s|);
      assert (s + right)[..|s|] == s;
    }
  }

  lemma {:induction false} LeftTrims(left: string, s: string)
    requires AllSpace(left) && (s != "" ==> !IsSpace(s[0]))
    ensures TrimLeft(left + s) == s
  {
    hide IsSpace;
    if left == "" {
      assert "" + s == s;
    } else {
      LeftTrims(left[1..], s);
      assert (left + s)[1..] == left[1..] + s;
    }
  }

  /** `strings.Split(s, sep)` for a one-rune separator. */
  function Split(s: string, sep: char): (parts: seq<string>)
    ensures |parts| >= 1
    ensures forall p | p in parts :: sep !in p
  {
    if s == "" then [""]
    else
      var rest := Split(s[1..], sep);
      if s[0] == sep then [""] + rest else [[s[0]] + rest[0]] + rest[1..]
  }

  /** `strings.Join(parts, sep)`. */
  function Join(parts: seq<string>, sep: string): string {
    if parts == [] then ""
    else if |parts| == 1 then parts[0]
    else parts[0] + sep + Join(parts[1..], sep)
  }

  lemma {:induction false} JoinSplit(s: string, sep: char)
    ensures Join(Split(s, sep), [sep]) == s
  {
    if s != "" {
      var rest := Split(s[1..], sep);
      JoinSplit(s[1..], sep);
      if s[0] == sep {
        assert ([""] + rest)[1..] == rest;
        assert s == [sep] + s[1..];
      } else {
        var parts := [[s[0]] + rest[0]] + rest[1..];
        assert parts[1..] == rest[1..];
        assert s == [s[0]] + s[1..];
      }
    }
  }

  /** A part without the separator is split off whole. */
  lemma {:induction false} SplitHead(part: string, rest: string, sep: char)
    requires sep !in part
    ensures Split(part, sep) == [part]
    ensures Split(part + [sep] + rest, sep) == [part] + Split(rest, sep)
  {
    if part == "" {
      assert part + [sep] + rest == [sep] + rest;
    } else {
      SplitHead(part[1..], rest, sep);
      assert part == [part[0]] + part[1..];
      assert part + [sep] + rest == [part[0]] + (part[1..] + [sep] + rest);
      assert ([part[1..]] + Split(rest, sep))[1..] == Split(rest, sep);
    }
  }

  /** Splitting goes on after a separator as it would from the start. */
  lemma {:induction false} SplitAppend(a: string, b: string, sep: char)
    ensures Split(a + [sep] + b, sep) == Split(a, sep) + Split(b, sep)
  {
    if a == "" {
      assert a + [sep] + b == [sep] + b;
      SplitCons(sep, b, sep);
    } else {
      var rest := a[1..] + [sep] + b;
      assert a + [sep] + b == [a[0]] + rest && a == [a[0]] + a[1..];
      SplitCons(a[0], rest, sep);
      SplitCons(a[0], a[1..], sep);
      SplitAppend(a[1..], b, sep);
      JoinedHead(Split(a[1..], sep), Split(b, sep), a[0]);
    }
  }

  lemma SplitCons(c: char, s: string, sep: char)
    ensures Split([c] + s, sep) ==
            if c == sep then [""] + Split(s, sep) else [[c] + Split(s, sep)[0]] + Split(s, sep)[1..]
  {
    assert ([c] + s)[1..] == s;
  }

  lemma JoinedHead(x: seq<string>, y: seq<string>, c: char)
    requires x != []
    ensures [[c] + (x + y)[0]] + (x + y)[1..] == [[c] + x[0]] + x[1..] + y
    ensures [""] + (x + y) == [""] + x + y
  {
    assert (x + y)[1..] == x[1..] + y;
  }

  lemma {:induction false} SplitJoin(parts: seq<string>, sep: char)
    requires |parts| >= 1 && forall p | p in parts :: sep !in p
    ensures Split(Join(parts, [sep]), sep) == parts
  {
    var rest := parts[1..];
    assert parts == [parts[0]] + rest;
    if rest == [] {
      SplitHead(parts[0], "", sep);
    } else {
      SplitJoin(rest, sep);
      SplitHead(parts[0], Join(rest, [sep]), sep);
    }
  }

  predicate OccursAt(s: string, sep: string, i: int) {
    0 <= i <= |s| - |sep| && s[i..i + |sep|] == sep
  }

  /** `strings.LastIndex(s, sep)`, as a rune index; -1 when `sep` is absent. */
  function LastIndex(s: string, sep: string): int {
    LastIndexUpTo(s, sep, |s| - |sep|)
  }

  function LastIndexUpTo(s: string, sep: string, from: int): (at: int)
    ensures at == -1 || (0 <= at <= from && at + |sep| <= |s|)
    decreases from + 1
  {
    if from < 0 then -1
    else if OccursAt(s, sep, from) then from
    else LastIndexUpTo(s, sep, from - 1)
  }

  /** LastIndex finds an occurrence, and none lies after it. */
  lemma {:induction false} LastIndexMeaning(s: string, sep: string, from: int)
    ensures var at := LastIndexUpTo(s, sep, from); at == -1 || OccursAt(s, sep, at)
    ensures forall i | LastIndexUpTo(s, sep, from) < i <= from :: !OccursAt(s, sep, i)
    decreases from + 1
  {
    if 0 <= from && !OccursAt(s, sep, from) {
      LastIndexMeaning(s, sep, from - 1);
    }
  }
}
