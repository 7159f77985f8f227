/** The client's cell printer, which writes terminal colour codes, and the scanner that skips them. */
module Terminal {
  import opened Sorting

  const ESC: char := '\U{1B}'
  const CELL_WIDTH: nat := 35
  const CELL_FG_SPLIT: nat := 26

  predicate IsLetter(c: char) {
    'a' <= c <= 'z' || 'A' <= c <= 'Z'
  }

  // ---------------------------------------------------------------- what a terminal shows

  /** The rest of a text behind an opened code: past its first letter. */
  function PastCode(s: string): (r: string)
    ensures |r| <= |s|
  {
    if s == [] then [] else if IsLetter(s[0]) then s[1..] else PastCode(s[1..])
  }

  /** The code opened at the front of `s`, up to its letter. */
  function CodeOf(s: string): string {
    if s == [] || IsLetter(s[0]) then [] else [s[0]] + CodeOf(s[1..])
  }

  /** A text without its escape codes. */
  function Visible(s: string): string
    decreases |s|
  {
    if s == [] then []
    else if s[0] != ESC then [s[0]] + Visible(s[1..])
    else if |s| == 1 then []
    else if s[1] == '[' then Visible(PastCode(s[2..]))
    else Visible(s[2..])
  }

  /** A character on screen and the graphics code it was printed under. */
  datatype Glyph = Glyph(ch: char, code: string)

  /** What a terminal shows of `s` when it starts under graphics code `code`. */
  function Screen(s: string, code: string): seq<Glyph>
    decreases |s|
  {
    if s == [] then []
    else if s[0] != ESC then [Glyph(s[0], code)] + Screen(s[1..], code)
    else if |s| == 1 then []
    else if s[1] == '[' then Screen(PastCode(s[2..]), CodeOf(s[2..]))
    else Screen(s[2..], code)
  }

  function Chars(glyphs: seq<Glyph>): string {
    if glyphs == [] then [] else [glyphs[0].ch] + Chars(glyphs[1..])
  }

  /** The visible text is what the screen shows, whatever the colours. */
  lemma {:induction false} ScreenShowsVisible(s: string, code: string)
    ensures Chars(Screen(s, code)) == Visible(s)
    ensures |Screen(s, code)| == |Visible(s)|
    decreases |s|
  {
    if s == [] {
    } else if s[0] != ESC {
      ScreenShowsVisible(s[1..], code);
      var rest := Screen(s[1..], code);
      assert ([Glyph(s[0], code)] + rest)[1..] == rest;
    } else if |s| > 1 && s[1] == '[' {
      ScreenShowsVisible(PastCode(s[2..]), CodeOf(s[2..]));
    } else if |s| > 1 {
      ScreenShowsVisible(s[2..], code);
    }
  }

  // ---------------------------------------------------------------- the scanner

  method VisibleLen(s: string) returns (len: nat)
    ensures len == |Visible(s)|
  {
    len := 0;
    var i := 0;
    while i < |s|
      invariant i <= |s|
      invariant |Visible(s)| == len + |Visible(s[i..])|
      decreases |s| - i
    {
      var c := s[i];
      assert s[i..][1..] == s[i + 1..];
      i := i + 1;
      if c == ESC {
        if i < |s| {
          assert s[i - 1..][2..] == s[i + 1..];
          var bracket := s[i] == '[';
          i := i + 1;
          if bracket {
            ghost var start := i;
            while i < |s| && !IsLetter(s[i])
              invariant start <= i <= |s|
              invariant PastCode(s[start..]) == PastCode(s[i..])
            {
              assert s[i..][1..] == s[i + 1..];
              i := i + 1;
            }
            if i < |s| {
              assert s[i..][1..] == s[i + 1..];
              i := i + 1;
            }
          }
        }
      } else {
        len := len + 1;
      }
    }
  }

  // ---------------------------------------------------------------- the printer

  datatype FillFrom = Left | Right

  /** Columns covered by a bar of the given length. */
  function BarStart(fillLen: nat, fillFrom: FillFrom): nat {
    if fillFrom.Left? then 0 else CELL_WIDTH - Shorter(fillLen)
  }

  function BarEnd(fillLen: nat, fillFrom: FillFrom): nat {
    if fillFrom.Left? then Shorter(fillLen) else CELL_WIDTH
  }

  function Shorter(fillLen: nat): nat {
    if fillLen <= CELL_WIDTH then fillLen else CELL_WIDTH
  }

  /** The graphics code a column is meant to have. */
  function ColumnCode(priceFg: string, barBg: string, barStart: nat, barEnd: nat, column: nat): string {
    (if column < CELL_FG_SPLIT then priceFg else "2") + ";" + (if barStart <= column < barEnd then barBg else "49")
  }

  /** The first `n` columns of `plain`, each under its code. */
  function Columns(plain: string, priceFg: string, barBg: string, barStart: nat, barEnd: nat, n: nat): (glyphs: seq<Glyph>)
    requires n <= |plain|
    ensures |glyphs| == n
  {
    seq(n, i requires 0 <= i < n => Glyph(plain[i], ColumnCode(priceFg, barBg, barStart, barEnd, i)))
  }

  predicate NoLetters(code: string) {
    forall i :: 0 <= i < |code| ==> !IsLetter(code[i])
  }

  predicate NoEscapes(text: string) {
    forall i :: 0 <= i < |text| ==> text[i] != ESC
  }

  /** Text without escapes and codes without letters, as every cell of the client has. */
  predicate PlainCell(plain: string, priceFg: string, barBg: string)
    requires |plain| >= CELL_WIDTH
  {
    NoEscapes(plain[..CELL_WIDTH]) && NoLetters(priceFg) && NoLetters(barBg)
  }

  function Under(text: string, code: string): (glyphs: seq<Glyph>)
    ensures |glyphs| == |text|
  {
    seq(|text|, i requires 0 <= i < |text| => Glyph(text[i], code))
  }

  lemma {:induction false} CodeEnds(code: string, rest: string)
    requires NoLetters(code)
    ensures PastCode(code + "m" + rest) == rest && CodeOf(code + "m" + rest) == code
  {
    var s := code + "m" + rest;
    if code == [] {
      assert s[1..] == rest;
    } else {
      assert s[1..] == code[1..] + "m" + rest;
      CodeEnds(code[1..], rest);
    }
  }

  lemma {:induction false} TextShows(text: string, rest: string, code: string)
    requires NoEscapes(text)
    ensures Screen(text + rest, code) == Under(text, code) + Screen(rest, code)
  {
    if text == [] {
      assert text + rest == rest;
      assert Under(text, code) + Screen(rest, code) == Screen(rest, code);
    } else {
      assert (text + rest)[1..] == text[1..] + rest;
      TextShows(text[1..], rest, code);
      assert Under(text, code) == [Glyph(text[0], code)] + Under(text[1..], code);
    }
  }

  /** The escape that switches to a graphics code. */
  function Switch(code: string): string {
    [ESC, '['] + code + "m"
  }

  lemma SwitchShows(code: string, rest: string, before: string)
    requires NoLetters(code)
    ensures Screen(Switch(code) + rest, before) == Screen(rest, code)
  {
    var s := Switch(code) + rest;
    assert s[2..] == code + "m" + rest;
    CodeEnds(code, rest);
  }

  /** Whatever was on, a terminal shows `out` as these glyphs, up to the next switch. */
  ghost predicate Shows(out: string, glyphs: seq<Glyph>) {
    forall code, rest, before {:trigger Screen(out + (Switch(code) + rest), before)} ::
        NoLetters(code) ==> Screen(out + (Switch(code) + rest), before) == glyphs + Screen(rest, code)
  }

  lemma NothingShows()
    ensures Shows("", [])
  {
    forall code, rest, before | NoLetters(code)
      ensures Screen("" + (Switch(code) + rest), before) == [] + Screen(rest, code)
    {
      assert "" + (Switch(code) + rest) == Switch(code) + rest;
      assert [] + Screen(rest, code) == Screen(rest, code);
      SwitchShows(code, rest, before);
    }
  }

  /** One more coloured run. */
  lemma RunShows(out: string, glyphs: seq<Glyph>, code: string, text: string)
    requires Shows(out, glyphs) && NoLetters(code) && NoEscapes(text)
    ensures Shows(out + Switch(code) + text, glyphs + Under(text, code))
  {
    forall next, rest, before | NoLetters(next)
      ensures Screen(out + Switch(code) + text + (Switch(next) + rest), before) == glyphs + Under(text, code) + Screen(rest, next)
    {
      var more := text + (Switch(next) + rest);
      assert out + Switch(code) + text + (Switch(next) + rest) == out + (Switch(code) + more);
      assert Screen(out + (Switch(code) + more), before) == glyphs + Screen(more, code);
      TextShows(text, Switch(next) + rest, code);
      SwitchShows(next, rest, code);
      assert glyphs + (Under(text, code) + Screen(rest, next)) == glyphs + Under(text, code) + Screen(rest, next);
    }
  }

  /** Switching back to the default ends the glyphs and leaves that code on. */
  lemma ResetShows(out: string, glyphs: seq<Glyph>)
    requires Shows(out, glyphs)
    ensures forall before, rest {:trigger Screen(out + Switch("0") + rest, before)} ::
        Screen(out + Switch("0") + rest, before) == glyphs + Screen(rest, "0")
    ensures Visible(out + Switch("0")) == Chars(glyphs)
  {
    forall before, rest ensures Screen(out + Switch("0") + rest, before) == glyphs + Screen(rest, "0") {
      assert out + Switch("0") + rest == out + (Switch("0") + rest);
    }
    assert Screen(out + Switch("0") + "", "") == glyphs + Screen("", "0");
    assert out + Switch("0") + "" == out + Switch("0");
    assert glyphs + Screen("", "0") == glyphs;
    ScreenShowsVisible(out + Switch("0"), "");
  }

  function NatOrder(): (nat, nat) -> bool {
    (a: nat, b: nat) => a <= b
  }

  /** `sort_unstable` on plain numbers. */
  method SortInPlace(a: array<nat>)
    modifies a
    ensures a[..] == SortBy(old(a[..]), NatOrder())
  {
    var sorted := SortBy(a[..], NatOrder());
    for i := 0 to a.Length
      invariant a[..i] == sorted[..i]
    {
      a[i] := sorted[i];
    }
    assert a[..] == a[..a.Length] && sorted[..a.Length] == sorted;
  }

  /** Where the cell's look may change, in order. */
  ghost predicate Boundaries(b: seq<nat>, barStart: nat, barEnd: nat) {
    && |b| == 5 && b[0] == 0 && b[4] == CELL_WIDTH
    && (forall i, j :: 0 <= i < j < 5 ==> b[i] <= b[j])
    && CELL_FG_SPLIT in b && barStart in b && barEnd in b
  }

  lemma SortedBoundaries(barStart: nat, barEnd: nat)
    requires barStart <= CELL_WIDTH && barEnd <= CELL_WIDTH
    ensures Boundaries(SortBy([0, CELL_FG_SPLIT, barStart, barEnd, CELL_WIDTH], NatOrder()), barStart, barEnd)
  {
    var unsorted: seq<nat> := [0, CELL_FG_SPLIT, barStart, barEnd, CELL_WIDTH];
    var b := SortBy(unsorted, NatOrder());
    SortSorted(unsorted, NatOrder());
    SortElements(unsorted, NatOrder());
    assert unsorted[0] == 0 && unsorted[1] == CELL_FG_SPLIT && unsorted[2] == barStart && unsorted[3] == barEnd && unsorted[4] == CELL_WIDTH;
    forall i, j | 0 <= i < j < 5 ensures b[i] <= b[j] {
      assert NatOrder()(b[i], b[j]);
    }
    assert 0 in b && CELL_WIDTH in b;
    assert b[0] in unsorted && b[4] in unsorted;
  }

  /** Between neighbouring boundaries every column has the look of the first. */
  lemma SameLook(b: seq<nat>, barStart: nat, barEnd: nat, w: nat, column: nat)
    requires Boundaries(b, barStart, barEnd) && w < 4 && b[w] <= column < b[w + 1]
    ensures column < CELL_FG_SPLIT <==> b[w] < CELL_FG_SPLIT
    ensures barStart <= column < barEnd <==> barStart <= b[w] < barEnd
  {
    NotBetween(b, CELL_FG_SPLIT, w);
    NotBetween(b, barStart, w);
    NotBetween(b, barEnd, w);
  }

  lemma NotBetween(b: seq<nat>, x: nat, w: nat)
    requires |b| == 5 && w < 4 && x in b && forall i, j :: 0 <= i < j < 5 ==> b[i] <= b[j]
    ensures x <= b[w] || b[w + 1] <= x
  {
    var m :| 0 <= m < 5 && b[m] == x;
  }

  /** One more run extends the columns shown. */
  lemma RunExtendsColumns(plain: string, priceFg: string, barBg: string, barStart: nat, barEnd: nat, b: seq<nat>, w: nat)
    requires |plain| >= CELL_WIDTH && Boundaries(b, barStart, barEnd) && w < 4
    ensures b[w] <= b[w + 1] <= CELL_WIDTH
    ensures Columns(plain, priceFg, barBg, barStart, barEnd, b[w + 1])
         == Columns(plain, priceFg, barBg, barStart, barEnd, b[w])
            + Under(plain[b[w]..b[w + 1]], ColumnCode(priceFg, barBg, barStart, barEnd, b[w]))
  {
    assert b[w + 1] <= CELL_WIDTH by {
      if w + 1 < 4 {
        assert b[w + 1] <= b[4];
      }
    }
    var longer := Columns(plain, priceFg, barBg, barStart, barEnd, b[w + 1]);
    var shorter := Columns(plain, priceFg, barBg, barStart, barEnd, b[w]);
    var run := Under(plain[b[w]..b[w + 1]], ColumnCode(priceFg, barBg, barStart, barEnd, b[w]));
    forall i | 0 <= i < b[w + 1] ensures longer[i] == (shorter + run)[i] {
      if i >= b[w] {
        SameLook(b, barStart, barEnd, w, i);
      }
    }
  }

  /** A window between neighbouring boundaries, printed as one run or skipped when empty. */
  lemma WindowShows(out: string, plain: string, priceFg: string, barBg: string, barStart: nat, barEnd: nat, b: seq<nat>, w: nat)
    requires |plain| >= CELL_WIDTH && Boundaries(b, barStart, barEnd) && w < 4 && b[w] <= CELL_WIDTH
    requires PlainCell(plain, priceFg, barBg)
    requires Shows(out, Columns(plain, priceFg, barBg, barStart, barEnd, b[w]))
    ensures b[w] <= b[w + 1] <= CELL_WIDTH
    ensures var columns, code := Columns(plain, priceFg, barBg, barStart, barEnd, b[w + 1]), ColumnCode(priceFg, barBg, barStart, barEnd, b[w]);
            Shows(if b[w] == b[w + 1] then out else out + Switch(code) + plain[b[w]..b[w + 1]], columns)
  {
    RunExtendsColumns(plain, priceFg, barBg, barStart, barEnd, b, w);
    var code := ColumnCode(priceFg, barBg, barStart, barEnd, b[w]);
    assert NoLetters(code);
    if b[w] != b[w + 1] {
      RunShows(out, Columns(plain, priceFg, barBg, barStart, barEnd, b[w]), code, plain[b[w]..b[w + 1]]);
    }
  }

  /** The edges at which the look may change, in order. */
  function Edges(barStart: nat, barEnd: nat): (b: seq<nat>)
    ensures |b| == 5
  {
    SortBy([0, CELL_FG_SPLIT, barStart, barEnd, CELL_WIDTH], NatOrder())
  }

  /** The first `n` runs between edges, each behind its code, empty ones left out. */
  ghost function Runs(plain: string, priceFg: string, barBg: string, barStart: nat, barEnd: nat, b: seq<nat>, n: nat): string
    requires |plain| >= CELL_WIDTH && Boundaries(b, barStart, barEnd) && n <= 4
  {
    if n == 0 then ""
    else
      var before := Runs(plain, priceFg, barBg, barStart, barEnd, b, n - 1);
      if b[n - 1] == b[n] then before
      else before + Switch(ColumnCode(priceFg, barBg, barStart, barEnd, b[n - 1])) + plain[b[n - 1]..EdgeWithin(b, barStart, barEnd, n)]
  }

  ghost function EdgeWithin(b: seq<nat>, barStart: nat, barEnd: nat, n: nat): (edge: nat)
    requires Boundaries(b, barStart, barEnd) && 0 < n <= 4
    ensures b[n - 1] <= edge == b[n] <= CELL_WIDTH
  {
    assert n < 4 ==> b[n] <= b[4];
    b[n]
  }

  /** What is printed, whatever the text. */
  ghost function Shaded(plain: string, priceFg: string, barBg: string, fillLen: nat, fillFrom: FillFrom): string
    requires |plain| >= CELL_WIDTH
  {
    var barStart, barEnd := BarStart(fillLen, fillFrom), BarEnd(fillLen, fillFrom);
    SortedBoundaries(barStart, barEnd);
    Runs(plain, priceFg, barBg, barStart, barEnd, Edges(barStart, barEnd), 4) + Switch("0")
  }

  lemma {:induction false} RunsShow(plain: string, priceFg: string, barBg: string, barStart: nat, barEnd: nat, b: seq<nat>, n: nat)
    requires |plain| >= CELL_WIDTH && Boundaries(b, barStart, barEnd) && n <= 4 && PlainCell(plain, priceFg, barBg)
    ensures b[n] <= CELL_WIDTH
    ensures Shows(Runs(plain, priceFg, barBg, barStart, barEnd, b, n), Columns(plain, priceFg, barBg, barStart, barEnd, b[n]))
  {
    hide Shows;
    if n == 0 {
      NothingShows();
      assert Columns(plain, priceFg, barBg, barStart, barEnd, 0) == [];
    } else {
      RunsShow(plain, priceFg, barBg, barStart, barEnd, b, n - 1);
      WindowShows(Runs(plain, priceFg, barBg, barStart, barEnd, b, n - 1), plain, priceFg, barBg, barStart, barEnd, b, n - 1);
    }
  }

  /** A terminal shows `out` as the 35 columns of the cell and is left with its colours reset; without codes their text remains. */
  ghost predicate ShowsCell(out: string, plain: string, priceFg: string, barBg: string, fillLen: nat, fillFrom: FillFrom)
    requires |plain| >= CELL_WIDTH
  {
    var columns := Columns(plain, priceFg, barBg, BarStart(fillLen, fillFrom), BarEnd(fillLen, fillFrom), CELL_WIDTH);
    && (forall before, rest {:trigger Screen(out + rest, before)} :: Screen(out + rest, before) == columns + Screen(rest, "0"))
    && Visible(out) == plain[..CELL_WIDTH]
  }

  /**
   For text without escapes and codes without letters a terminal shows exactly the first 35 characters,
   bar background inside the bar and price colour before column 26, and is left with its colours reset.
   */
  lemma ShadedShows(plain: string, priceFg: string, barBg: string, fillLen: nat, fillFrom: FillFrom)
    requires |plain| >= CELL_WIDTH && PlainCell(plain, priceFg, barBg)
    ensures ShowsCell(Shaded(plain, priceFg, barBg, fillLen, fillFrom), plain, priceFg, barBg, fillLen, fillFrom)
  {
    hide Screen, Visible, Shows, Runs, Columns;
    var barStart, barEnd := BarStart(fillLen, fillFrom), BarEnd(fillLen, fillFrom);
    var b := Edges(barStart, barEnd);
    SortedBoundaries(barStart, barEnd);
    RunsShow(plain, priceFg, barBg, barStart, barEnd, b, 4);
    ResetShows(Runs(plain, priceFg, barBg, barStart, barEnd, b, 4), Columns(plain, priceFg, barBg, barStart, barEnd, CELL_WIDTH));
    ColumnsRead(plain, priceFg, barBg, barStart, barEnd, CELL_WIDTH);
  }

  lemma OneMoreRun(plain: string, priceFg: string, barBg: string, barStart: nat, barEnd: nat, b: seq<nat>, n: nat)
    requires |plain| >= CELL_WIDTH && Boundaries(b, barStart, barEnd) && n < 4
    ensures b[n] <= b[n + 1] <= CELL_WIDTH
    ensures var code := (if b[n] < CELL_FG_SPLIT then priceFg else "2") + ";" + if b[n] >= barStart && b[n] < barEnd then barBg else "49";
            var before := Runs(plain, priceFg, barBg, barStart, barEnd, b, n);
            Runs(plain, priceFg, barBg, barStart, barEnd, b, n + 1)
            == if b[n] == b[n + 1] then before else before + ([ESC, '['] + code + "m") + plain[b[n]..b[n + 1]]
  {
    assert EdgeWithin(b, barStart, barEnd, n + 1) == b[n + 1];
  }

  lemma NoRuns(plain: string, priceFg: string, barBg: string, barStart: nat, barEnd: nat, b: seq<nat>)
    requires |plain| >= CELL_WIDTH && Boundaries(b, barStart, barEnd)
    ensures Runs(plain, priceFg, barBg, barStart, barEnd, b, 0) == ""
  {
  }

  /** Colours one cell; what a terminal makes of it is `ShadedShows`. Shorter text is out of the source's bounds too. */
  method ShadeCell(plain: string, priceFg: string, barBg: string, fillLen: nat, fillFrom: FillFrom) returns (out: string)
    requires |plain| >= CELL_WIDTH
    ensures out == Shaded(plain, priceFg, barBg, fillLen, fillFrom)
    ensures PlainCell(plain, priceFg, barBg) ==> ShowsCell(out, plain, priceFg, barBg, fillLen, fillFrom)
  {
    hide ShowsCell, PlainCell, SortBy, Runs, Boundaries;
    var fill := if fillLen <= CELL_WIDTH then fillLen else CELL_WIDTH;
    var barStart, barEnd := 0, fill;
    if fillFrom.Right? {
      barStart, barEnd := CELL_WIDTH - fill, CELL_WIDTH;
    }
    var boundaries := new nat[] [0, CELL_FG_SPLIT, barStart, barEnd, CELL_WIDTH];
    assert boundaries[..] == [0, CELL_FG_SPLIT, barStart, barEnd, CELL_WIDTH];
    SortInPlace(boundaries);
    SortedBoundaries(barStart, barEnd);
    var b := boundaries[..];
    out := "";
    NoRuns(plain, priceFg, barBg, barStart, barEnd, b);
    for w := 0 to 4
      invariant out == Runs(plain, priceFg, barBg, barStart, barEnd, b, w)
    {
      var start, end := b[w], b[w + 1];
      OneMoreRun(plain, priceFg, barBg, barStart, barEnd, b, w);
      if start != end {
        var fg := if start < CELL_FG_SPLIT then priceFg else "2";
        var bg := if start >= barStart && start < barEnd then barBg else "49";
        out := out + ([ESC, '['] + (fg + ";" + bg) + "m") + plain[start..end];
      }
    }
    out := out + ([ESC, '['] + "0" + "m");
    if PlainCell(plain, priceFg, barBg) {
      ShadedShows(plain, priceFg, barBg, fillLen, fillFrom);
    }
  }

  lemma {:induction false} CharsAt(glyphs: seq<Glyph>, i: nat)
    requires i < |glyphs|
    ensures |Chars(glyphs)| == |glyphs| && Chars(glyphs)[i] == glyphs[i].ch
  {
    if i > 0 {
      CharsAt(glyphs[1..], i - 1);
    } else if |glyphs| > 1 {
      CharsAt(glyphs[1..], 0);
    }
  }

  lemma ColumnsRead(plain: string, priceFg: string, barBg: string, barStart: nat, barEnd: nat, n: nat)
    requires n <= |plain|
    ensures Chars(Columns(plain, priceFg, barBg, barStart, barEnd, n)) == plain[..n]
  {
    var glyphs := Columns(plain, priceFg, barBg, barStart, barEnd, n);
    forall i | 0 <= i < n ensures |Chars(glyphs)| == n && Chars(glyphs)[i] == plain[i] {
      CharsAt(glyphs, i);
    }
  }

  /**
   What each of the 35 columns shows: its own character; the price colour in the first 26 and dim
   behind them; the bar's background in as many columns as the fill is long, counted from its edge.
   */
  lemma ColumnShows(plain: string, priceFg: string, barBg: string, fillLen: nat, fillFrom: FillFrom, column: nat)
    requires |plain| >= CELL_WIDTH && column < 35
    ensures var columns := Columns(plain, priceFg, barBg, BarStart(fillLen, fillFrom), BarEnd(fillLen, fillFrom), CELL_WIDTH);
            var inBar := if fillFrom.Left? then column < fillLen else 35 - column <= fillLen;
            && |columns| == 35
            && columns[column] == Glyph(plain[column], (if column < 26 then priceFg else "2") + ";" + if inBar then barBg else "49")
  {
  }

  lemma {:induction false} PastAnyCode(code: string, letter: char, rest: string)
    requires NoLetters(code) && IsLetter(letter)
    ensures PastCode(code + [letter] + rest) == rest
  {
    var s := code + [letter] + rest;
    if code == [] {
      assert s[1..] == rest;
    } else {
      assert s[1..] == code[1..] + [letter] + rest;
      PastAnyCode(code[1..], letter, rest);
    }
  }

  lemma {:induction false} PastOpenCode(code: string)
    requires NoLetters(code)
    ensures PastCode(code) == ""
  {
    if code != [] {
      PastOpenCode(code[1..]);
    }
  }

  /**
   The visible text, read from the front: a bracketed code goes up to its first letter, or to the end if
   it has none, any other escape takes one character with it, and everything else is visible.
   */
  lemma VisibleReads(c: char, code: string, letter: char, rest: string)
    requires NoLetters(code) && IsLetter(letter)
    ensures Visible("") == Visible([ESC]) == Visible([ESC, '['] + code) == ""
    ensures c != ESC ==> Visible([c] + rest) == [c] + Visible(rest)
    ensures c != '[' ==> Visible([ESC, c] + rest) == Visible(rest)
    ensures Visible([ESC, '['] + (code + [letter] + rest)) == Visible(rest)
  {
    PastOpenCode(code);
    PastAnyCode(code, letter, rest);
    assert ([ESC, '['] + code)[2..] == code && ([c] + rest)[1..] == rest && ([ESC, c] + rest)[2..] == rest;
    assert ([ESC, '['] + (code + [letter] + rest))[2..] == code + [letter] + rest;
  }
}
