/** Packing numbered options onto one screen. */
module Menus {
  import opened Text
  import opened Encoding
  import opened Truncation
  import opened Gsm

  datatype MenuItem = MenuItem(key: string, text: string)

  const MIN_LABEL_RUNES: int := 4

  /** One menu row: a line break, the key and the label, each on one line. */
  function Line(item: MenuItem): string {
    "\n" + OneLine(item.key) + ". " + OneLine(item.text)
  }

  function Lines(items: seq<MenuItem>): string {
    if items == [] then "" else Lines(items[..|items| - 1]) + Line(items[|items| - 1])
  }

  // ---------- the longest label that fits ----------

  /** `item`, its label truncated to `n` runes, fits after `rendered`. */
  predicate LabelFits(rendered: string, item: MenuItem, n: int) {
    Fits(rendered + Line(MenuItem(item.key, Truncated(item.text, n))))
  }

  /** The greatest label length, up to `hi`, that fits; 0 when none does. */
  function LabelRoom(rendered: string, item: MenuItem, hi: nat): (n: nat)
    ensures n <= hi
  {
    if hi == 0 || LabelFits(rendered, item, hi) then hi else LabelRoom(rendered, item, hi - 1)
  }

  lemma {:induction false} LabelRoomIsGreatest(rendered: string, item: MenuItem, hi: nat)
    ensures LabelRoom(rendered, item, hi) > 0 ==> LabelFits(rendered, item, LabelRoom(rendered, item, hi))
    ensures forall n | LabelRoom(rendered, item, hi) < n <= hi :: !LabelFits(rendered, item, n)
  {
    hide LabelFits;
    if hi > 0 {
      LabelRoomIsGreatest(rendered, item, hi - 1);
    }
  }

  /** The shortened label of an item whose whole line does not fit, "" when
      nothing worth showing does. */
  function ShortLabel(rendered: string, item: MenuItem): string {
    var n := LabelRoom(rendered, item, |item.text|);
    if n < MIN_LABEL_RUNES then "" else OneLine(Truncated(item.text, n))
  }

  lemma LineWithin(rendered: string, key: string, a: string, b: string)
    requires Within(OneLine(a), OneLine(b))
    ensures Within(rendered + Line(MenuItem(key, a)), rendered + Line(MenuItem(key, b)))
  {
    hide OneLine;
  }

  /** A shorter limit never costs more, through every case of Truncate and the
      line collapsing after it. */
  lemma LabelCostMonotone(rendered: string, item: MenuItem, m: int, n: int)
    requires m <= n < |item.text|
    ensures Within(OneLine(Truncated(item.text, m)), OneLine(Truncated(item.text, n)))
  {
    hide OneLine, Kept;
    var s := item.text;
    if |ELLIPSIS| < m {
      KeptMonotone(s, m - |ELLIPSIS|, n - |ELLIPSIS|);
      OneLineMarkedMonotone(Kept(s, m - |ELLIPSIS|), Kept(s, n - |ELLIPSIS|));
    } else if 0 < m {
      DotsOnOneLine(m);
      if |ELLIPSIS| < n {
        DotsBeforeMarked(Kept(s, n - |ELLIPSIS|), m);
      } else {
        DotsOnOneLine(n);
        DotsWithinDots(m, n);
      }
    } else {
      assert OneLine("") == "" by { EmptyLine(); }
    }
  }

  lemma EmptyLine()
    ensures OneLine("") == ""
  {
  }

  lemma {:induction false} DotsOnOneLine(m: nat)
    ensures OneLine(Repeat('.', m)) == Repeat('.', m)
  {
    if m > 0 {
      DotsOnOneLine(m - 1);
      assert Repeat('.', m) == Repeat('.', m - 1) + ['.'];
      CollapseSnoc(Breaks, Repeat('.', m - 1), '.');
    }
  }

  lemma DotsBeforeMarked(kept: string, m: nat)
    requires m <= |ELLIPSIS|
    ensures Within(Repeat('.', m), OneLine(kept + ELLIPSIS))
  {
    hide OneLine, Pending;
    CollapseMarked(kept);
    DotsWithin(Pending(Breaks, kept), m);
  }

  /** When the whole line does not fit, what fits is closed downwards, so a
      binary search for the longest label is exact. */
  lemma LabelFitsMonotone(rendered: string, item: MenuItem, m: int, n: int)
    requires m <= n <= |item.text|
    requires !Fits(rendered + Line(item))
    ensures LabelFits(rendered, item, n) ==> LabelFits(rendered, item, m)
  {
    hide Line, Fits, OneLine, Truncated;
    if LabelFits(rendered, item, n) {
      if n == |item.text| {
        WholeLabel(item, n);
      } else {
        LabelCostMonotone(rendered, item, m, n);
        LineWithin(rendered, item.key, Truncated(item.text, m), Truncated(item.text, n));
        FitsWithin(rendered + Line(MenuItem(item.key, Truncated(item.text, m))),
                   rendered + Line(MenuItem(item.key, Truncated(item.text, n))));
      }
    }
  }

  lemma FitsWithin(t: string, s: string)
    requires Within(t, s) && Fits(s)
    ensures Fits(t)
  {
    AffordableWithin(t, s, 0);
  }

  lemma WholeLabel(item: MenuItem, n: int)
    requires n == |item.text|
    ensures MenuItem(item.key, Truncated(item.text, n)) == item
  {
  }

  method LongestLabelThatFits(rendered: string, key: string, text: string) returns (r: string)
    ensures !Fits(rendered + Line(MenuItem(key, text))) ==> r == ShortLabel(rendered, MenuItem(key, text))
  {
    hide Line, Fits, OneLine, Truncated, LabelFits;
    ghost var item := MenuItem(key, text);
    ghost var room := LabelRoom(rendered, item, |text|);
    ghost var overflows := !Fits(rendered + Line(item));
    LabelRoomIsGreatest(rendered, item, |text|);
    var lo, hi := 0, |text|;
    while lo < hi
      invariant 0 <= lo <= hi <= |text|
      invariant overflows ==> lo <= room <= hi
    {
      var mid := (lo + hi + 1) / 2;
      var short := Truncate(text, mid);
      var fits := FitsScreen(rendered + Line(MenuItem(key, short)));
      ProbeAnswers(rendered, item, mid, fits, room, overflows);
      if fits {
        lo := mid;
      } else {
        hi := mid - 1;
      }
    }
    if lo < MIN_LABEL_RUNES {
      return "";
    }
    var short := Truncate(text, lo);
    r := OneLine(short);
  }

  lemma ProbeAnswers(rendered: string, item: MenuItem, mid: nat, fits: bool, room: nat, overflows: bool)
    requires 0 < mid <= |item.text| && room == LabelRoom(rendered, item, |item.text|)
    requires fits == Fits(rendered + Line(MenuItem(item.key, Truncated(item.text, mid))))
    requires overflows == !Fits(rendered + Line(item))
    ensures overflows ==> (fits <==> mid <= room)
  {
    hide Line, Fits, Truncated;
    LabelRoomIsGreatest(rendered, item, |item.text|);
    assert fits <==> LabelFits(rendered, item, mid);
    if overflows && room > 0 && mid <= room {
      LabelFitsMonotone(rendered, item, mid, room);
    }
  }

  /** A label is shortened exactly when some truncation to four runes or more fits,
      and then to the longest such. */
  lemma ShortLabelIsExact(rendered: string, item: MenuItem)
    requires !Fits(rendered + Line(item))
    ensures ShortLabel(rendered, item) != "" <==> exists n | 4 <= n <= |item.text| :: LabelFits(rendered, item, n)
    ensures ShortLabel(rendered, item) != "" ==>
              exists n | 4 <= n < |item.text| ::
                && LabelFits(rendered, item, n) && (forall m | n < m <= |item.text| :: !LabelFits(rendered, item, m))
                && ShortLabel(rendered, item) == OneLine(Truncated(item.text, n))
    ensures ShortLabel(rendered, item) != "" ==>
              Fits(rendered + Line(MenuItem(item.key, ShortLabel(rendered, item))))
  {
    hide OneLine, Fits, Truncated;
    LabelRoomIsGreatest(rendered, item, |item.text|);
    var n := LabelRoom(rendered, item, |item.text|);
    OneLineIsOneLine(Truncated(item.text, n));
    WholeLabel(item, |item.text|);
    if 4 <= n < |item.text| {
      ShortenedIsText(item.text, n);
    }
  }

  lemma ShortenedIsText(text: string, n: nat)
    requires 4 <= n < |text|
    ensures OneLine(Truncated(text, n)) != ""
  {
    hide OneLine, Truncated, Pending, IsSpace;
    TruncateMeaning(text, n);
    var k: nat :| CutsAt(text, n - 3, k) && Truncated(text, n) == text[..k] + "...";
    CollapseMarked(text[..k]);
  }

  // ---------- Menu ----------

  /** The row Menu adds for `item`: whole when it fits, else with the label
      shortened, and "" when neither is possible. */
  function BestLine(rendered: string, item: MenuItem): string {
    if Fits(rendered + Line(item)) then Line(item)
    else
      var short := ShortLabel(rendered, item);
      if short == "" then "" else Line(MenuItem(item.key, short))
  }

  function MenuLines(rendered: string, items: seq<MenuItem>): seq<string>
    decreases |items|
  {
    if items == [] then []
    else
      var line := BestLine(rendered, items[0]);
      if line == "" then [] else [line] + MenuLines(rendered + line, items[1..])
  }

  function MenuText(title: string, items: seq<MenuItem>): string {
    title + Concat(MenuLines(title, items))
  }

  method Menu(title: string, items: seq<MenuItem>) returns (screen: string)
    ensures screen == MenuText(title, items)
  {
    hide Line, Fits, ShortLabel, BestLine, MenuText;
    screen := "";
    if title != "" {
      screen := screen + title;
    }
    assert screen == title && items[0..] == items;
    for i := 0 to |items|
      invariant MenuText(title, items) == MenuText(screen, items[i..])
    {
      MenuTextStep(screen, items[i..]);
      assert items[i..][0] == items[i] && items[i..][1..] == items[i + 1..];
      var line := Line(items[i]);
      var fits := FitsScreen(screen + line);
      var short := "";
      if !fits {
        short := LongestLabelThatFits(screen, items[i].key, items[i].text);
      }
      NextLine(screen, items[i], fits, short);
      if !fits {
        if short == "" {
          return;
        }
        line := Line(MenuItem(items[i].key, short));
      }
      screen := screen + line;
    }
    MenuTextStep(screen, items[|items|..]);
  }

  lemma NextLine(rendered: string, item: MenuItem, fits: bool, short: string)
    requires fits == Fits(rendered + Line(item)) && (!fits ==> short == ShortLabel(rendered, item))
    ensures BestLine(rendered, item) ==
            if fits then Line(item) else if short == "" then "" else Line(MenuItem(item.key, short))
    ensures Line(item) != "" && Line(MenuItem(item.key, short)) != ""
  {
    hide Fits, ShortLabel, OneLine;
  }

  lemma BestLineFits(rendered: string, item: MenuItem)
    ensures BestLine(rendered, item) != "" ==> Fits(rendered + BestLine(rendered, item))
    ensures !Fits(rendered) ==> BestLine(rendered, item) == ""
  {
    hide Line, ShortLabel;
    if BestLine(rendered, item) != "" {
      if !Fits(rendered + Line(item)) {
        ShortLabelIsExact(rendered, item);
      }
      PrefixWithin(rendered + BestLine(rendered, item), rendered);
      FitsWithin(rendered, rendered + BestLine(rendered, item));
    }
  }

  lemma MenuTextStep(title: string, items: seq<MenuItem>)
    ensures MenuText(title, items) ==
            if items == [] || BestLine(title, items[0]) == "" then title
            else MenuText(title + BestLine(title, items[0]), items[1..])
  {
    hide BestLine, Concat;
    ConcatSnoc([], "");
    if items != [] && BestLine(title, items[0]) != "" {
      var line := BestLine(title, items[0]);
      ConcatCons(line, MenuLines(title + line, items[1..]));
    }
  }

  /** A menu fits the screen exactly when its title does. */
  lemma {:induction false} MenuFitsIffTitleFits(title: string, items: seq<MenuItem>)
    ensures Fits(MenuText(title, items)) <==> Fits(title)
    decreases |items|
  {
    hide Fits, BestLine, MenuLines, Concat;
    MenuTextStep(title, items);
    if items != [] {
      var line := BestLine(title, items[0]);
      BestLineFits(title, items[0]);
      if line != "" {
        MenuFitsIffTitleFits(title + line, items[1..]);
        if Fits(title + line) {
          PrefixWithin(title + line, title);
          FitsWithin(title, title + line);
        }
      }
    }
  }

  /** Some row can show the item: the whole label, or its first `n` runes as Truncate
      leaves them, four at least. */
  ghost predicate CanShow(rendered: string, item: MenuItem) {
    Fits(rendered + Line(item)) || exists n | 4 <= n <= |item.text| :: LabelFits(rendered, item, n)
  }

  /** A row shows its item: with the whole label if that fits, else with the longest
      truncation that does. */
  ghost predicate ShowsItem(line: string, rendered: string, item: MenuItem) {
    || (Fits(rendered + Line(item)) && line == Line(item))
    || (!Fits(rendered + Line(item))
        && exists n | 4 <= n < |item.text| ::
             && LabelFits(rendered, item, n) && (forall m | n < m <= |item.text| :: !LabelFits(rendered, item, m))
             && line == Line(MenuItem(item.key, Truncated(item.text, n))))
  }

  /** The next row is there exactly when some row can show the item, and shows it. */
  lemma BestLineIsBest(rendered: string, item: MenuItem)
    ensures BestLine(rendered, item) != "" <==> CanShow(rendered, item)
    ensures BestLine(rendered, item) != "" ==> ShowsItem(BestLine(rendered, item), rendered, item)
  {
    hide Fits, OneLine, Truncated, ShortLabel, LabelFits;
    NextLine(rendered, item, Fits(rendered + Line(item)), ShortLabel(rendered, item));
    if !Fits(rendered + Line(item)) {
      ShortLabelIsExact(rendered, item);
      if ShortLabel(rendered, item) != "" {
        var n :| 4 <= n < |item.text| && LabelFits(rendered, item, n)
                 && (forall m | n < m <= |item.text| :: !LabelFits(rendered, item, m))
                 && ShortLabel(rendered, item) == OneLine(Truncated(item.text, n));
        OneLineIsOneLine(Truncated(item.text, n));
        assert BestLine(rendered, item) == Line(MenuItem(item.key, Truncated(item.text, n)));
      }
    }
  }

  /** Menu renders a prefix of the items in order, each whole or with the longest
      label that fits, and stops only at an item that no row can show. */
  lemma {:induction false} MenuShowsPrefix(title: string, items: seq<MenuItem>, i: nat)
    ensures |MenuLines(title, items)| <= |items|
    ensures var lines := MenuLines(title, items);
            && (i < |lines| ==> ShowsItem(lines[i], title + Concat(lines[..i]), items[i]))
            && (i == |lines| < |items| ==> !CanShow(title + Concat(lines), items[i]))
    decreases |items|
  {
    hide Fits, BestLine, Line, CanShow, ShowsItem;
    if items != [] {
      var line := BestLine(title, items[0]);
      BestLineIsBest(title, items[0]);
      if line == "" {
        assert title + Concat([]) == title;
      } else {
        var rest := MenuLines(title + line, items[1..]);
        MenuShowsPrefix(title + line, items[1..], if i > 0 then i - 1 else 0);
        var lines := MenuLines(title, items);
        if i == 0 {
          assert lines[..0] == [] && title + Concat([]) == title;
        } else if i <= |lines| {
          assert lines[..i] == [line] + rest[..i - 1];
          ConcatCons(line, rest[..i - 1]);
          assert title + Concat(lines[..i]) == title + line + Concat(rest[..i - 1]);
          assert i == |lines| ==> lines[..i] == lines && rest[..i - 1] == rest;
        }
      }
    }
  }

  // ---------- MenuFit ----------

  /** The screen with the first `k` items between title and footer. */
  function FitText(title: string, items: seq<MenuItem>, footer: seq<MenuItem>, k: nat): string
    requires k <= |items|
  {
    title + Lines(items[..k]) + Lines(footer)
  }

  /** The greatest number of items, up to `hi`, that fits with the footer. */
  function Shown(title: string, items: seq<MenuItem>, footer: seq<MenuItem>, hi: nat): (k: nat)
    requires hi <= |items|
    ensures k <= hi
  {
    if hi == 0 || Fits(FitText(title, items, footer, hi)) then hi else Shown(title, items, footer, hi - 1)
  }

  lemma {:induction false} ShownIsGreatest(title: string, items: seq<MenuItem>, footer: seq<MenuItem>, hi: nat)
    requires hi <= |items|
    ensures var k := Shown(title, items, footer, hi); k > 0 ==> Fits(FitText(title, items, footer, k))
    ensures forall k | Shown(title, items, footer, hi) < k <= hi :: !Fits(FitText(title, items, footer, k))
  {
    hide Fits, FitText;
    if hi > 0 {
      ShownIsGreatest(title, items, footer, hi - 1);
    }
  }

  lemma {:induction false} LinesAppend(a: seq<MenuItem>, b: seq<MenuItem>)
    ensures Lines(a + b) == Lines(a) + Lines(b)
  {
    hide Line;
    if b == [] {
      assert a + b == a;
    } else {
      LinesAppend(a, b[..|b| - 1]);
      assert (a + b)[..|a + b| - 1] == a + b[..|b| - 1];
    }
  }

  lemma FewerItemsFit(title: string, items: seq<MenuItem>, footer: seq<MenuItem>, j: nat, k: nat)
    requires j <= k <= |items| && Fits(FitText(title, items, footer, k))
    ensures Fits(FitText(title, items, footer, j))
  {
    hide Line, Lines, Fits;
    assert items[..k] == items[..j] + items[j..k];
    LinesAppend(items[..j], items[j..k]);
    var a, b, c, f := title, Lines(items[..j]), Lines(items[j..k]), Lines(footer);
    assert a + (b + c) + f == a + b + c + f;
    FitsWithin(a + b + f, a + b + c + f);
  }

  method MenuFit(title: string, items: seq<MenuItem>, footer: seq<MenuItem>) returns (screen: string, shown: nat)
    ensures Fits(title + Lines(footer)) ==>
              && shown == Shown(title, items, footer, |items|)
              && screen == FitText(title, items, footer, shown)
    ensures !Fits(title + Lines(footer)) ==> shown == 0 && screen == Shrunk(title + Lines(footer))
  {
    hide Line, Fits, Shrunk;
    var footerText := "";
    for i := 0 to |footer|
      invariant footerText == Lines(footer[..i])
    {
      assert footer[..i + 1][..i] == footer[..i];
      footerText := footerText + Line(footer[i]);
    }
    assert footer[..|footer|] == footer;
    var roomy := FitsScreen(title + footerText);
    if !roomy {
      screen := Shrink(title + footerText);
      return screen, 0;
    }
    var b := title;
    shown := 0;
    assert items[..0] == [] && title + "" == title;
    while shown < |items|
      invariant shown <= |items| && b == title + Lines(items[..shown])
      invariant Fits(FitText(title, items, footer, shown))
    {
      var line := Line(items[shown]);
      assert items[..shown + 1][..shown] == items[..shown];
      assert b + line == title + Lines(items[..shown + 1]);
      var fits := FitsScreen(b + line + footerText);
      if !fits {
        break;
      }
      b := b + line;
      shown := shown + 1;
    }
    GreedyIsGreatest(title, items, footer, shown);
    screen := b + footerText;
  }

  lemma GreedyIsGreatest(title: string, items: seq<MenuItem>, footer: seq<MenuItem>, k: nat)
    requires k <= |items| && Fits(FitText(title, items, footer, k))
    requires k < |items| ==> !Fits(FitText(title, items, footer, k + 1))
    ensures k == Shown(title, items, footer, |items|)
  {
    hide FitText, Fits;
    ShownIsGreatest(title, items, footer, |items|);
    var most := Shown(title, items, footer, |items|);
    if k < most {
      FewerItemsFit(title, items, footer, k + 1, most);
    }
  }

  /** When title and footer fit, MenuFit's screen fits and ends with the whole
      footer, and no longer run of items would fit. */
  lemma MenuFitIsOptimal(title: string, items: seq<MenuItem>, footer: seq<MenuItem>, j: nat)
    requires Fits(title + Lines(footer)) && j <= |items|
    ensures var k := Shown(title, items, footer, |items|);
            && Fits(FitText(title, items, footer, k))
            && (Fits(FitText(title, items, footer, j)) <==> j <= k)
  {
    hide Fits, Lines;
    ShownIsGreatest(title, items, footer, |items|);
    var k := Shown(title, items, footer, |items|);
    if k == 0 {
      NoItems(title, items, footer);
    }
    if j <= k {
      FewerItemsFit(title, items, footer, j, k);
    }
  }

  lemma NoItems(title: string, items: seq<MenuItem>, footer: seq<MenuItem>)
    ensures FitText(title, items, footer, 0) == title + Lines(footer)
  {
    assert items[..0] == [];
    assert title + "" == title;
  }

  // ---------- one line per option ----------

  /** The row without its line break. */
  function Row(item: MenuItem): string {
    OneLine(item.key) + ". " + OneLine(item.text)
  }

  function Rows(items: seq<MenuItem>): seq<string> {
    if items == [] then [] else [Row(items[0])] + Rows(items[1..])
  }

  lemma RowHasNoBreak(item: MenuItem)
    ensures '\n' !in Row(item) && Line(item) == "\n" + Row(item)
  {
    hide OneLine;
    OneLineIsOneLine(item.key);
    OneLineIsOneLine(item.text);
  }

  lemma LinesCons(item: MenuItem, rest: seq<MenuItem>)
    ensures Lines([item] + rest) == Line(item) + Lines(rest)
  {
    hide Line;
    LinesAppend([item], rest);
    assert [item][..0] == [];
    assert Lines([item]) == Line(item);
  }

  /** No label can add a line: split on line breaks, the rows after a text
      without breaks are one part per item, whatever the labels contain. */
  lemma {:induction false} LinesSplitPerItem(head: string, items: seq<MenuItem>)
    requires '\n' !in head
    ensures Split(head + Lines(items), '\n') == [head] + Rows(items)
    decreases |items|
  {
    hide Line, Row;
    if items == [] {
      assert head + "" == head;
      SplitHead(head, "", '\n');
    } else {
      var row := Row(items[0]);
      RowHasNoBreak(items[0]);
      assert items == [items[0]] + items[1..];
      LinesCons(items[0], items[1..]);
      LinesSplitPerItem(row, items[1..]);
      SplitHead(head, row + Lines(items[1..]), '\n');
      assert head + Lines(items) == head + ['\n'] + (row + Lines(items[1..]));
    }
  }

  /** MenuFit's screen is the title and then, split on line breaks, one line per
      shown item and one per footer item. */
  lemma MenuFitLines(title: string, items: seq<MenuItem>, footer: seq<MenuItem>, k: nat)
    requires k <= |items|
    ensures FitText(title, items, footer, k) == title + Lines(items[..k] + footer)
    ensures Split(Lines(items[..k] + footer), '\n') == [""] + Rows(items[..k] + footer)
  {
    hide Lines, Rows, Split;
    LinesAppend(items[..k], footer);
    LinesSplitPerItem("", items[..k] + footer);
    assert "" + Lines(items[..k] + footer) == Lines(items[..k] + footer);
  }

  /** The items as Menu shows them, labels shortened where they had to be. */
  function ShownItems(rendered: string, items: seq<MenuItem>): seq<MenuItem>
    decreases |items|
  {
    if items == [] || BestLine(rendered, items[0]) == "" then []
    else
      var item := items[0];
      var shown := if Fits(rendered + Line(item)) then item else MenuItem(item.key, ShortLabel(rendered, item));
      [shown] + ShownItems(rendered + BestLine(rendered, item), items[1..])
  }

  lemma {:induction false} MenuLinesAreLines(title: string, items: seq<MenuItem>)
    ensures Concat(MenuLines(title, items)) == Lines(ShownItems(title, items))
    ensures |ShownItems(title, items)| == |MenuLines(title, items)| <= |items|
    decreases |items|
  {
    hide Line, Fits, ShortLabel;
    if items != [] {
      var line := BestLine(title, items[0]);
      if line != "" {
        var rest := ShownItems(title + line, items[1..]);
        MenuLinesAreLines(title + line, items[1..]);
        ConcatCons(line, MenuLines(title + line, items[1..]));
        LinesCons(ShownItems(title, items)[0], rest);
      }
    }
  }

  /** Menu's screen is the title and then, split on line breaks, exactly one
      line per rendered item. */
  lemma MenuSplitsPerItem(title: string, items: seq<MenuItem>)
    ensures MenuText(title, items) == title + Lines(ShownItems(title, items))
    ensures Split(Lines(ShownItems(title, items)), '\n') == [""] + Rows(ShownItems(title, items))
  {
    hide MenuLines, ShownItems, Rows, Lines, Split;
    MenuLinesAreLines(title, items);
    LinesSplitPerItem("", ShownItems(title, items));
    assert "" + Lines(ShownItems(title, items)) == Lines(ShownItems(title, items));
  }
}
