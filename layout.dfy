/** The text layout engine shared by the three copies of
    `draw_templated_text` (main/test.py, run_pdf.py, main/processar_agenda.py):
    font selection with fallback, greedy word wrap by measured pixel width,
    truncation to `max_lines`, and the origin of every drawn line.

    Font rendering is abstract: `Metrics` gives the bounding box Pillow
    reports for a string drawn at (0, 0) in a loaded font. The width of a
    string is `right - left` and its top offset is `top`; the line height
    comes from the box of "Aghy". Measuring and drawing use the same
    resolved `Font` by construction. */
module TextLayout {
  import opened Common
  import opened Words

  /** The global default font file, used when nothing else is named and as
      the fallback when the chosen file does not exist. */
  const GlobalDefaultFont: string := "sao.ttf"

  /** A font file loaded at a point size (`ImageFont.truetype(path, size)`). */
  datatype Font = Font(file: string, size: int)

  /** A bounding box (left, top, right, bottom) in pixels. */
  datatype Box = Box(left: int, top: int, right: int, bottom: int)

  type Metrics = (Font, string) -> Box

  function Width(m: Metrics, font: Font, s: string): int {
    m(font, s).right - m(font, s).left
  }

  function TopOffset(m: Metrics, font: Font, s: string): int {
    m(font, s).top
  }

  /** A template's record in the registry; every field may be absent. */
  datatype TemplateSpec = TemplateSpec(
    fontName: Option<string>,
    fontSize: Option<int>,
    color: Option<string>,
    align: Option<string>,
    maxWidth: Option<int>,
    maxLines: Option<nat>,
    posX: Option<int>,
    posY: Option<int>)

  /** Why `draw_templated_text` raises: the fallback font file is missing
      too (FileNotFoundError), or a template key it indexes is absent
      (KeyError). */
  datatype DrawError = FontFileNotFound(file: string) | MissingKey(key: string)

  // -----------------------------------------------------------------------
  // Font selection

  /** The font file name asked for: the override when truthy, else the
      template's `font_name` when truthy, else the global default. */
  function ChooseFontName(fontOverride: Option<string>, templateFont: Option<string>): (name: string)
    ensures Present(fontOverride) ==> name == fontOverride.value
    ensures !Present(fontOverride) && Present(templateFont) ==> name == templateFont.value
    ensures !Present(fontOverride) && !Present(templateFont) ==> name == GlobalDefaultFont
    ensures name != ""
  {
    var name := GlobalDefaultFont;
    var name := if Present(templateFont) then templateFont.value else name;
    if Present(fontOverride) then fontOverride.value else name
  }

  /** The font file actually loaded from the font store, or None where
      the source raises FileNotFoundError. */
  function ResolveFont(fonts: set<string>, fontOverride: Option<string>, templateFont: Option<string>): (r: Option<string>)
    ensures r.Some? ==> r.value in fonts
    ensures r.Some? ==> r.value == ChooseFontName(fontOverride, templateFont) || r.value == GlobalDefaultFont
    ensures ChooseFontName(fontOverride, templateFont) in fonts ==> r == Some(ChooseFontName(fontOverride, templateFont))
    ensures r.None? <==> ChooseFontName(fontOverride, templateFont) !in fonts && GlobalDefaultFont !in fonts
  {
    var chosen := ChooseFontName(fontOverride, templateFont);
    if chosen in fonts then Some(chosen)
    else if GlobalDefaultFont in fonts then Some(GlobalDefaultFont)
    else None
  }

  /** The fallback skips the template font: an override that names a
      missing file falls back to the global default, even when the
      template's own font is in the store. */
  lemma MissingOverrideSkipsTemplateFont(fonts: set<string>, fontOverride: Option<string>, templateFont: Option<string>)
    requires Present(fontOverride) && fontOverride.value !in fonts
    requires Present(templateFont) && templateFont.value in fonts
    requires GlobalDefaultFont in fonts
    ensures ResolveFont(fonts, fontOverride, templateFont) == Some(GlobalDefaultFont)
  {
  }

  // -----------------------------------------------------------------------
  // Line height

  /** `get_font_line_height`: the height of the box of "Aghy" plus 25%. */
  function LineHeight(m: Metrics, font: Font): real {
    var box := m(font, "Aghy");
    (box.bottom - box.top) as real * 5.0 / 4.0
  }

  // -----------------------------------------------------------------------
  // Greedy word wrap

  /** The words of each wrapped line after the greedy pass over `words`.
      A word that fits (the measured width of the extended line is at most
      `maxWidth`, see `Fits`) joins the current line; a word that does not closes the
      current line, even an empty one, and starts the next. */
  function WrapGroups(words: seq<string>, fits: seq<string> -> bool): (gs: seq<seq<string>>)
    ensures 1 <= |gs| <= |words| + 1
    decreases |words|
  {
    if words == [] then [[]]
    else
      var prev := WrapGroups(words[..|words| - 1], fits);
      var cur := prev[|prev| - 1];
      var w := words[|words| - 1];
      if fits(cur + [w]) then prev[..|prev| - 1] + [cur + [w]]
      else prev + [[w]]
  }

  /** The test of the wrapping loop: a line fits when its measured width
      is at most `maxWidth`. */
  function Fits(maxWidth: int, m: Metrics, font: Font): seq<string> -> bool {
    line => Width(m, font, Join(line)) <= maxWidth
  }

  /** Each word list joined into its line. */
  function JoinEach(gs: seq<seq<string>>): (lines: seq<string>)
    ensures |lines| == |gs|
    ensures forall k :: 0 <= k < |gs| ==> lines[k] == Join(gs[k])
    decreases |gs|
  {
    if gs == [] then [] else JoinEach(gs[..|gs| - 1]) + [Join(gs[|gs| - 1])]
  }

  /** The wrapped lines, before truncation. */
  function Wrap(words: seq<string>, maxWidth: int, m: Metrics, font: Font): seq<string>
  {
    JoinEach(WrapGroups(words, Fits(maxWidth, m, font)))
  }

  /** Appending a word list appends its line. */
  lemma JoinEachSnoc(gs: seq<seq<string>>, g: seq<string>)
    ensures JoinEach(gs + [g]) == JoinEach(gs) + [Join(g)]
  {
    assert (gs + [g])[..|gs|] == gs;
  }

  /** One step of the greedy pass, on the first `i + 1` words. */
  lemma WrapStep(words: seq<string>, i: nat, fits: seq<string> -> bool)
    requires i < |words|
    ensures var prev := WrapGroups(words[..i], fits);
      var cur := prev[|prev| - 1];
      WrapGroups(words[..i + 1], fits) ==
        if fits(cur + [words[i]]) then prev[..|prev| - 1] + [cur + [words[i]]]
        else prev + [[words[i]]]
  {
    assert words[..i + 1][..i] == words[..i];
  }

  /** What one iteration of the wrapping loop sees: the stripped test line
      is the current line extended by the word, and the next state of the
      greedy pass depends on its width. */
  lemma WrapAdvance(words: seq<string>, i: nat, front: seq<seq<string>>, cur: seq<string>,
                    maxWidth: int, m: Metrics, font: Font)
    requires i < |words| && AllWords(words) && AllWords(cur)
    requires front + [cur] == WrapGroups(words[..i], Fits(maxWidth, m, font))
    ensures IsWord(words[i]) && AllWords(cur + [words[i]])
    ensures Strip(Join(cur) + " " + words[i]) == Join(cur + [words[i]])
    ensures Width(m, font, Join(cur + [words[i]])) <= maxWidth ==>
      WrapGroups(words[..i + 1], Fits(maxWidth, m, font)) == front + [cur + [words[i]]]
    ensures Width(m, font, Join(cur + [words[i]])) > maxWidth ==>
      WrapGroups(words[..i + 1], Fits(maxWidth, m, font)) == (front + [cur]) + [[words[i]]]
  {
    StripExtend(cur, words[i]);
    WrapStep(words, i, Fits(maxWidth, m, font));
    var prev := front + [cur];
    assert prev[..|prev| - 1] == front && prev[|prev| - 1] == cur;
  }

  /** One iteration of the wrapping loop: the word joins the current line
      when the stripped test line fits, otherwise the current line is
      emitted and the word starts the next one. */
  method WrapWord(words: seq<string>, i: nat, maxWidth: int, m: Metrics, font: Font,
                  lines: seq<string>, currentLine: string, ghost front: seq<seq<string>>, ghost cur: seq<string>)
    returns (lines': seq<string>, currentLine': string, ghost front': seq<seq<string>>, ghost cur': seq<string>)
    requires i < |words| && AllWords(words) && AllWords(cur)
    requires front + [cur] == WrapGroups(words[..i], Fits(maxWidth, m, font))
    requires lines == JoinEach(front) && currentLine == Join(cur)
    ensures front' + [cur'] == WrapGroups(words[..i + 1], Fits(maxWidth, m, font))
    ensures AllWords(cur') && lines' == JoinEach(front') && currentLine' == Join(cur')
  {
    var word := words[i];
    var testLine := Strip(currentLine + " " + word);
    WrapAdvance(words, i, front, cur, maxWidth, m, font);
    if Width(m, font, testLine) <= maxWidth {
      lines', currentLine' := lines, testLine;
      front', cur' := front, cur + [word];
    } else {
      JoinEachSnoc(front, cur);
      lines', currentLine' := lines + [currentLine], word;
      front', cur' := front + [cur], [word];
    }
  }

  /** The wrapping loop of `draw_templated_text`. */
  method WrapLines(words: seq<string>, maxWidth: int, m: Metrics, font: Font) returns (lines: seq<string>)
    requires AllWords(words)
    ensures lines == Wrap(words, maxWidth, m, font)
  {
    lines := [];
    var currentLine := "";
    ghost var front: seq<seq<string>> := [];
    ghost var cur: seq<string> := [];
    var i := 0;
    while i < |words|
      invariant 0 <= i <= |words|
      invariant front + [cur] == WrapGroups(words[..i], Fits(maxWidth, m, font))
      invariant AllWords(cur)
      invariant lines == JoinEach(front)
      invariant currentLine == Join(cur)
    {
      lines, currentLine, front, cur := WrapWord(words, i, maxWidth, m, font, lines, currentLine, front, cur);
      i := i + 1;
    }
    WrapDone(words, front, cur, maxWidth, m, font);
    lines := lines + [currentLine];
  }

  /** After the last word, the current line is emitted too. */
  lemma WrapDone(words: seq<string>, front: seq<seq<string>>, cur: seq<string>, maxWidth: int, m: Metrics, font: Font)
    requires front + [cur] == WrapGroups(words[..|words|], Fits(maxWidth, m, font))
    ensures JoinEach(front) + [Join(cur)] == Wrap(words, maxWidth, m, font)
  {
    JoinEachSnoc(front, cur);
    assert words[..|words|] == words;
  }

  /** The last word list of the greedy pass over a non-empty word list,
      before and after its last word. */
  lemma WrapLast(words: seq<string>, fits: seq<string> -> bool)
    returns (prev: seq<seq<string>>, w: string)
    requires words != []
    ensures prev == WrapGroups(words[..|words| - 1], fits) && w == words[|words| - 1]
    ensures var gs := WrapGroups(words, fits);
      && (fits(prev[|prev| - 1] + [w]) ==>
            |gs| == |prev| && gs[|prev| - 1] == prev[|prev| - 1] + [w] &&
            forall k :: 0 <= k < |prev| - 1 ==> gs[k] == prev[k])
      && (!fits(prev[|prev| - 1] + [w]) ==>
            |gs| == |prev| + 1 && gs[|prev|] == [w] && forall k :: 0 <= k < |prev| ==> gs[k] == prev[k])
  {
    prev := WrapGroups(words[..|words| - 1], fits);
    w := words[|words| - 1];
  }

  lemma {:induction false} WrapGroupsAreWords(words: seq<string>, fits: seq<string> -> bool)
    requires AllWords(words)
    ensures forall k :: 0 <= k < |WrapGroups(words, fits)| ==> AllWords(WrapGroups(words, fits)[k])
    decreases |words|
  {
    if words != [] {
      var prev, w := WrapLast(words, fits);
      WrapGroupsAreWords(words[..|words| - 1], fits);
      assert IsWord(w);
    }
  }

  /** No word is split, dropped or reordered: the lines' words, read in
      order, are exactly the input words. */
  lemma {:induction false} WrapKeepsWords(words: seq<string>, fits: seq<string> -> bool)
    ensures Flatten(WrapGroups(words, fits)) == words
    decreases |words|
  {
    if words != [] {
      var init := words[..|words| - 1];
      WrapKeepsWords(init, fits);
      var prev := WrapGroups(init, fits);
      FlattenExtend(prev[..|prev| - 1], prev[|prev| - 1], words[|words| - 1]);
      FlattenSnoc(prev, [words[|words| - 1]]);
      assert init + [words[|words| - 1]] == words;
    }
  }

  /** Fit bound: a line holding two or more words, and the first line when
      it holds one word, passed the fit test. Only a single over-long word
      on a later line may fail it. */
  lemma {:induction false} WrapFits(words: seq<string>, fits: seq<string> -> bool)
    ensures forall k :: 0 <= k < |WrapGroups(words, fits)| ==>
      var g := WrapGroups(words, fits)[k];
      (|g| >= 2 || (k == 0 && |g| == 1)) ==> fits(g)
    decreases |words|
  {
    if words != [] {
      var prev, w := WrapLast(words, fits);
      WrapFits(words[..|words| - 1], fits);
    }
  }

  /** Only the first line can be empty. */
  lemma {:induction false} WrapLaterLinesNonEmpty(words: seq<string>, fits: seq<string> -> bool)
    ensures forall k :: 1 <= k < |WrapGroups(words, fits)| ==> WrapGroups(words, fits)[k] != []
    decreases |words|
  {
    if words != [] {
      var prev, w := WrapLast(words, fits);
      WrapLaterLinesNonEmpty(words[..|words| - 1], fits);
    }
  }

  /** Each break is forced: the first word of every later line did not fit
      at the end of the line before it. */
  lemma {:induction false} WrapBreaks(words: seq<string>, fits: seq<string> -> bool)
    ensures forall k :: 1 <= k < |WrapGroups(words, fits)| ==>
      var gs := WrapGroups(words, fits);
      gs[k] != [] && !fits(gs[k - 1] + [gs[k][0]])
    decreases |words|
  {
    WrapLaterLinesNonEmpty(words, fits);
    if words != [] {
      var prev, w := WrapLast(words, fits);
      WrapBreaks(words[..|words| - 1], fits);
      var gs := WrapGroups(words, fits);
      forall k | 1 <= k < |gs| ensures !fits(gs[k - 1] + [gs[k][0]]) {
        if k < |prev| {
          assert gs[k - 1] == prev[k - 1];
          assert gs[k][0] == prev[k][0];
        }
      }
    }
  }

  /** The first line is empty exactly when there are no words or the very
      first word alone does not fit; in the second case an empty line is
      emitted before that word, which starts the next line. */
  lemma {:induction false} WrapFirstLine(words: seq<string>, fits: seq<string> -> bool)
    ensures WrapGroups(words, fits)[0] == [] <==> words == [] || !fits([words[0]])
    ensures words != [] && !fits([words[0]]) ==>
      |WrapGroups(words, fits)| >= 2 && WrapGroups(words, fits)[1] != [] && WrapGroups(words, fits)[1][0] == words[0]
    decreases |words|
  {
    if |words| == 1 {
      assert words[..0] == [];
      assert [] + [words[0]] == [words[0]];
    } else if |words| > 1 {
      var init := words[..|words| - 1];
      var prev, w := WrapLast(words, fits);
      WrapFirstLine(init, fits);
      assert init[0] == words[0];
      var gs := WrapGroups(words, fits);
      assert gs[0] == [] <==> prev[0] == [] by {
        if |prev| == 1 {
          assert prev[0] != [];
        }
      }
      if !fits([words[0]]) {
        assert |prev| >= 2 && prev[1] != [] && prev[1][0] == words[0];
        assert gs[1] == prev[1] || (|prev| == 2 && gs[1] == prev[1] + [w]);
      }
    }
  }

  /** The number of words that did not fit at the end of the line being
      built, each of which closed that line and started the next. */
  function Rejections(words: seq<string>, fits: seq<string> -> bool): nat
    decreases |words|
  {
    if words == [] then 0
    else
      var prev := WrapGroups(words[..|words| - 1], fits);
      Rejections(words[..|words| - 1], fits) + (if fits(prev[|prev| - 1] + [words[|words| - 1]]) then 0 else 1)
  }

  /** The line count: the line the pass starts with, plus one line per
      rejected word. */
  lemma {:induction false} WrapCount(words: seq<string>, fits: seq<string> -> bool)
    ensures |WrapGroups(words, fits)| == 1 + Rejections(words, fits)
    decreases |words|
  {
    if words != [] {
      var prev, w := WrapLast(words, fits);
      WrapCount(words[..|words| - 1], fits);
    }
  }

  /** Every join was accepted: each prefix of a line that ends in a word
      added to it passed the fit test when that word was added. Only the
      first word of a later line is placed without a test. */
  lemma {:induction false} WrapPrefixesFit(words: seq<string>, fits: seq<string> -> bool)
    ensures forall k, j ::
      0 <= k < |WrapGroups(words, fits)| && 1 <= j <= |WrapGroups(words, fits)[k]| && (j >= 2 || k == 0)
      ==> fits(WrapGroups(words, fits)[k][..j])
    decreases |words|
  {
    if words != [] {
      var prev, w := WrapLast(words, fits);
      WrapPrefixesFit(words[..|words| - 1], fits);
      var gs := WrapGroups(words, fits);
      var joined := fits(prev[|prev| - 1] + [w]);
      forall k, j | 0 <= k < |gs| && 1 <= j <= |gs[k]| && (j >= 2 || k == 0)
        ensures fits(gs[k][..j])
      {
        if k < |prev| - 1 || (k == |prev| - 1 && !joined) {
          assert gs[k] == prev[k];
        } else if k == |prev| - 1 {
          if j == |gs[k]| {
            assert gs[k][..j] == prev[k] + [w];
          } else {
            assert gs[k][..j] == prev[k][..j];
          }
        }
      }
    }
  }

  /** The words on each line are the words the wrapper put on it, and the
      lines' words read in order are the input words. */
  lemma WrapLineWords(words: seq<string>, maxWidth: int, m: Metrics, font: Font)
    requires AllWords(words)
    ensures |Wrap(words, maxWidth, m, font)| == |WrapGroups(words, Fits(maxWidth, m, font))|
    ensures forall k :: 0 <= k < |Wrap(words, maxWidth, m, font)| ==>
      Split(Wrap(words, maxWidth, m, font)[k]) == WrapGroups(words, Fits(maxWidth, m, font))[k]
    ensures SplitEach(Wrap(words, maxWidth, m, font)) == WrapGroups(words, Fits(maxWidth, m, font))
    ensures Flatten(SplitEach(Wrap(words, maxWidth, m, font))) == words
  {
    var gs := WrapGroups(words, Fits(maxWidth, m, font));
    var lines := Wrap(words, maxWidth, m, font);
    WrapGroupsAreWords(words, Fits(maxWidth, m, font));
    forall k | 0 <= k < |lines| ensures Split(lines[k]) == gs[k] {
      SplitJoin(gs[k]);
    }
    assert SplitEach(lines) == gs;
    WrapKeepsWords(words, Fits(maxWidth, m, font));
  }

  /** The words of each line, as `str.split()` gives them. */
  function SplitEach(lines: seq<string>): (r: seq<seq<string>>)
    ensures |r| == |lines|
    ensures forall k :: 0 <= k < |lines| ==> r[k] == Split(lines[k])
    decreases |lines|
  {
    if lines == [] then [] else SplitEach(lines[..|lines| - 1]) + [Split(lines[|lines| - 1])]
  }

  /** Text without words wraps to a single empty line. */
  lemma WrapNoWords(maxWidth: int, m: Metrics, font: Font)
    ensures Wrap([], maxWidth, m, font) == [""]
  {
  }

  // -----------------------------------------------------------------------
  // Truncation

  /** `lines[:max_lines]` when `'max_lines'` is in the template. */
  function Truncate(lines: seq<string>, maxLines: Option<nat>): (r: seq<string>)
    ensures maxLines.None? ==> r == lines
    ensures maxLines.Some? ==> |r| == (if maxLines.value < |lines| then maxLines.value else |lines|)
    ensures r == lines[..|r|]
  {
    match maxLines
    case None => lines
    case Some(n) => if n < |lines| then lines[..n] else lines
  }

  // -----------------------------------------------------------------------
  // Placement

  /** The x origin of a line of width `lineWidth` in a box of width
      `maxWidth` whose left edge is `posX`. */
  function DrawX(align: string, posX: int, maxWidth: int, lineWidth: int): (x: real)
    ensures align == "center" ==> x + lineWidth as real / 2.0 == posX as real + maxWidth as real / 2.0
    ensures align == "right" ==> x + lineWidth as real == (posX + maxWidth) as real
    ensures align != "center" && align != "right" ==> x == posX as real
  {
    if align == "center" then posX as real + maxWidth as real / 2.0 - lineWidth as real / 2.0
    else if align == "right" then (posX + maxWidth) as real - lineWidth as real
    else posX as real
  }

  /** One `draw.text((x, y), line, font=font, fill=fill)` call. */
  datatype DrawOp = DrawOp(text: string, x: real, y: real, font: Font, fill: string)

  /** The resolved drawing parameters of a template. */
  datatype Style = Style(fill: string, align: string, maxWidth: int, maxLines: Option<nat>, posX: int, posY: int)

  /** How far below the first line's top line `k` starts: the drawing
      loop adds the line height once per line drawn. */
  function LineOffset(k: nat, h: real): real
    decreases k
  {
    if k == 0 then 0.0 else LineOffset(k - 1, h) + h
  }

  /** The running offset is `k` line heights. */
  lemma {:induction false} LineOffsetIsProduct(k: nat, h: real)
    ensures LineOffset(k, h) == k as real * h
    decreases k
  {
    if k > 0 {
      LineOffsetIsProduct(k - 1, h);
      assert k as real * h == (k - 1) as real * h + h;
    }
  }

  /** The draw call for line `k`: its visual top is `LineOffset(k)` below `posY`. */
  function PlaceLine(line: string, k: nat, style: Style, font: Font, m: Metrics): DrawOp {
    DrawOp(line,
           DrawX(style.align, style.posX, style.maxWidth, Width(m, font, line)),
           style.posY as real + LineOffset(k, LineHeight(m, font)) - TopOffset(m, font, line) as real,
           font, style.fill)
  }

  /** One draw call per line, in order. */
  function Place(lines: seq<string>, style: Style, font: Font, m: Metrics): (ops: seq<DrawOp>)
    ensures |ops| == |lines|
    ensures forall k :: 0 <= k < |lines| ==> ops[k] == PlaceLine(lines[k], k, style, font, m)
    decreases |lines|
  {
    if lines == [] then []
    else
      var n := |lines| - 1;
      Place(lines[..n], style, font, m) + [PlaceLine(lines[n], n, style, font, m)]
  }

  /** The drawing loop of `draw_templated_text`: `current_y` starts at the
      template's y and advances by the line height after every line. */
  method PlaceLines(lines: seq<string>, style: Style, font: Font, m: Metrics) returns (ops: seq<DrawOp>)
    ensures ops == Place(lines, style, font, m)
  {
    ops := [];
    var currentY: real := style.posY as real;
    var lineHeight := LineHeight(m, font);
    var i := 0;
    while i < |lines|
      invariant 0 <= i <= |lines|
      invariant currentY == style.posY as real + LineOffset(i, lineHeight)
      invariant ops == Place(lines[..i], style, font, m)
    {
      var line := lines[i];
      var box := m(font, line);
      var lineWidth := box.right - box.left;
      var lineTopOffset := box.top;
      var drawX := DrawX(style.align, style.posX, style.maxWidth, lineWidth);
      var op := DrawOp(line, drawX, currentY - lineTopOffset as real, font, style.fill);
      assert op == PlaceLine(lines[i], i, style, font, m);
      assert lines[..i + 1][..i] == lines[..i];
      ops := ops + [op];
      currentY := currentY + lineHeight;
      i := i + 1;
    }
    assert lines[..|lines|] == lines;
  }

  /** Everything drawn for `text`: split, wrap, truncate, place. */
  function Layout(text: string, style: Style, font: Font, m: Metrics): seq<DrawOp> {
    Place(Truncate(Wrap(Split(text), style.maxWidth, m, font), style.maxLines), style, font, m)
  }

  /** Split, wrap, truncate and draw, as `draw_templated_text` does once
      the font and the template's parameters are settled. */
  method LayoutText(text: string, style: Style, font: Font, m: Metrics) returns (ops: seq<DrawOp>)
    ensures ops == Layout(text, style, font, m)
  {
    var words := Split(text);
    SplitWords(text);
    var lines := WrapLines(words, style.maxWidth, m, font);
    lines := Truncate(lines, style.maxLines);
    ops := PlaceLines(lines, style, font, m);
  }

  // -----------------------------------------------------------------------
  // Properties of the whole layout

  /** What is drawn: one operation per kept line, the kept lines being
      exactly the first `max_lines` wrapped lines in order; each line's
      visual top sits `k` line heights below `pos_y`. */
  lemma LayoutLines(text: string, style: Style, font: Font, m: Metrics)
    ensures var lines := Wrap(Split(text), style.maxWidth, m, font);
      var ops := Layout(text, style, font, m);
      (style.maxLines.None? ==> |ops| == |lines|) &&
      (style.maxLines.Some? ==> |ops| == if style.maxLines.value < |lines| then style.maxLines.value else |lines|) &&
      forall k :: 0 <= k < |ops| ==>
        ops[k].text == lines[k] && ops[k].font == font && ops[k].fill == style.fill &&
        ops[k].y + TopOffset(m, font, lines[k]) as real == style.posY as real + k as real * LineHeight(m, font)
  {
    var lines := Wrap(Split(text), style.maxWidth, m, font);
    var kept := Truncate(lines, style.maxLines);
    var ops := Place(kept, style, font, m);
    assert Layout(text, style, font, m) == ops;
    forall k | 0 <= k < |ops|
      ensures ops[k].text == lines[k] && ops[k].font == font && ops[k].fill == style.fill
      ensures ops[k].y + TopOffset(m, font, lines[k]) as real == style.posY as real + k as real * LineHeight(m, font)
    {
      assert ops[k] == PlaceLine(kept[k], k, style, font, m);
      PlacedLineTop(kept[k], k, style, font, m);
      assert kept[k] == lines[k];
    }
  }

  /** Line `k` is drawn with its visual top `k` line heights below `pos_y`. */
  lemma PlacedLineTop(line: string, k: nat, style: Style, font: Font, m: Metrics)
    ensures PlaceLine(line, k, style, font, m).y + TopOffset(m, font, line) as real ==
      style.posY as real + k as real * LineHeight(m, font)
  {
    LineOffsetIsProduct(k, LineHeight(m, font));
  }

  /** The strings drawn, in drawing order. */
  function Texts(ops: seq<DrawOp>): (r: seq<string>)
    ensures |r| == |ops|
    ensures forall k :: 0 <= k < |ops| ==> r[k] == ops[k].text
    decreases |ops|
  {
    if ops == [] then [] else Texts(ops[..|ops| - 1]) + [ops[|ops| - 1].text]
  }

  /** The words drawn, in drawing order, are a prefix of the text's words,
      and all of them when no line is cut off. */
  lemma LayoutWords(text: string, style: Style, font: Font, m: Metrics)
    ensures var drawn := Flatten(SplitEach(Texts(Layout(text, style, font, m))));
      |drawn| <= |Split(text)| && drawn == Split(text)[..|drawn|] &&
      (|Layout(text, style, font, m)| == |Wrap(Split(text), style.maxWidth, m, font)| ==> drawn == Split(text))
  {
    var words := Split(text);
    var gs := WrapGroups(words, Fits(style.maxWidth, m, font));
    var n := |Layout(text, style, font, m)|;
    DrawnGroups(text, style, font, m);
    WrapKeepsWords(words, Fits(style.maxWidth, m, font));
    FlattenPrefix(gs, n);
    var drawn := Flatten(SplitEach(Texts(Layout(text, style, font, m))));
    assert drawn == Flatten(gs[..n]);
    if n == |gs| {
      assert gs[..n] == gs;
    }
  }

  /** The words of the drawn lines are the first groups of the greedy pass. */
  lemma DrawnGroups(text: string, style: Style, font: Font, m: Metrics)
    ensures var gs := WrapGroups(Split(text), Fits(style.maxWidth, m, font));
      var n := |Layout(text, style, font, m)|;
      n <= |gs| == |Wrap(Split(text), style.maxWidth, m, font)| &&
      SplitEach(Texts(Layout(text, style, font, m))) == gs[..n]
  {
    SplitWords(text);
    KeptGroups(Split(text), style.maxWidth, style.maxLines, m, font);
    LayoutTexts(text, style, font, m);
  }

  lemma KeptGroups(words: seq<string>, maxWidth: int, maxLines: Option<nat>, m: Metrics, font: Font)
    requires AllWords(words)
    ensures var kept := Truncate(Wrap(words, maxWidth, m, font), maxLines);
      SplitEach(kept) == WrapGroups(words, Fits(maxWidth, m, font))[..|kept|]
  {
    var lines := Wrap(words, maxWidth, m, font);
    WrapLineWords(words, maxWidth, m, font);
    var kept := Truncate(lines, maxLines);
    SplitEachPrefix(lines, |kept|);
  }

  /** The words of the first `n` lines are the first `n` word lists. */
  lemma SplitEachPrefix(lines: seq<string>, n: nat)
    requires n <= |lines|
    ensures SplitEach(lines[..n]) == SplitEach(lines)[..n]
  {
    var a := SplitEach(lines[..n]);
    var b := SplitEach(lines)[..n];
    assert |a| == |b|;
    forall k | 0 <= k < n
      ensures a[k] == b[k]
    {
      assert lines[..n][k] == lines[k];
    }
  }

  /** The strings drawn are the kept lines. */
  lemma LayoutTexts(text: string, style: Style, font: Font, m: Metrics)
    ensures Texts(Layout(text, style, font, m)) == Truncate(Wrap(Split(text), style.maxWidth, m, font), style.maxLines)
  {
    var kept := Truncate(Wrap(Split(text), style.maxWidth, m, font), style.maxLines);
    var ops := Layout(text, style, font, m);
    assert ops == Place(kept, style, font, m);
    assert Texts(ops) == kept;
  }

  lemma {:induction false} FlattenPrefix(gs: seq<seq<string>>, n: nat)
    requires n <= |gs|
    ensures |Flatten(gs[..n])| <= |Flatten(gs)|
    ensures Flatten(gs[..n]) == Flatten(gs)[..|Flatten(gs[..n])|]
    decreases |gs|
  {
    if n < |gs| {
      FlattenPrefix(gs[..|gs| - 1], n);
      assert gs[..|gs| - 1][..n] == gs[..n];
      assert Flatten(gs) == Flatten(gs[..|gs| - 1]) + gs[|gs| - 1];
    } else {
      assert gs[..n] == gs;
    }
  }

  /** Empty (or all-whitespace) text draws one empty line at the
      template's position, unless `max_lines` is 0. */
  lemma LayoutBlankText(text: string, style: Style, font: Font, m: Metrics)
    requires forall k :: 0 <= k < |text| ==> IsSpace(text[k])
    ensures style.maxLines == Some(0) ==> Layout(text, style, font, m) == []
    ensures style.maxLines != Some(0) ==>
      Layout(text, style, font, m) ==
        [DrawOp("", DrawX(style.align, style.posX, style.maxWidth, Width(m, font, "")),
                style.posY as real - TopOffset(m, font, "") as real, font, style.fill)]
  {
    SplitBlank(text);
    LayoutNoWords(text, style, font, m);
  }

  /** A text without words draws the single empty line of its wrap. */
  lemma LayoutNoWords(text: string, style: Style, font: Font, m: Metrics)
    requires Split(text) == []
    ensures style.maxLines == Some(0) ==> Layout(text, style, font, m) == []
    ensures style.maxLines != Some(0) ==>
      Layout(text, style, font, m) ==
        [DrawOp("", DrawX(style.align, style.posX, style.maxWidth, Width(m, font, "")),
                style.posY as real - TopOffset(m, font, "") as real, font, style.fill)]
  {
    WrapNoWords(style.maxWidth, m, font);
    PlaceSingle("", style, font, m);
  }

  /** A single line, after truncation: drawn at the template's position
      unless `max_lines` is 0. */
  lemma PlaceSingle(line: string, style: Style, font: Font, m: Metrics)
    ensures style.maxLines == Some(0) ==> Place(Truncate([line], style.maxLines), style, font, m) == []
    ensures style.maxLines != Some(0) ==>
      Place(Truncate([line], style.maxLines), style, font, m) ==
        [DrawOp(line, DrawX(style.align, style.posX, style.maxWidth, Width(m, font, line)),
                style.posY as real - TopOffset(m, font, line) as real, font, style.fill)]
  {
    var kept := Truncate([line], style.maxLines);
    if style.maxLines == Some(0) {
      assert kept == [];
    } else {
      assert kept == [line];
      PlaceOne(line, style, font, m);
    }
  }

  /** A single line is drawn at the template's position. */
  lemma PlaceOne(line: string, style: Style, font: Font, m: Metrics)
    ensures Place([line], style, font, m) ==
      [DrawOp(line, DrawX(style.align, style.posX, style.maxWidth, Width(m, font, line)),
              style.posY as real - TopOffset(m, font, line) as real, font, style.fill)]
  {
    var ops := Place([line], style, font, m);
    assert |ops| == 1;
    var op := PlaceLine(line, 0, style, font, m);
    assert ops[0] == op;
    assert op.y == style.posY as real - TopOffset(m, font, line) as real;
    assert ops == [op];
  }
}
