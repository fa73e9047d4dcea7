/** The strict copy of `draw_templated_text` in main/test.py, used by the
    image endpoint: same font choice and wrapping as the other copies, but
    `color`, `max_width_pixels`, `pos_y` and `pos_x` are read with `[]`, so
    a template lacking one of them raises instead of taking a default. */
module ApiRender {
  import opened Common
  import opened Words
  import opened TextLayout
  import BatchDraw

  /** The style main/test.py draws with, once its required keys are known
      to be present (`pos_x` is only read when a line is drawn). */
  function StrictStyle(config: TemplateSpec): Style
    requires config.color.Some? && config.maxWidth.Some? && config.posY.Some?
  {
    Style(config.color.value, config.align.GetOr("left"), config.maxWidth.value, config.maxLines,
          config.posX.GetOr(0), config.posY.value)
  }

  /** A template with all four keys the strict copy reads with `[]`. */
  predicate Complete(config: TemplateSpec) {
    config.color.Some? && config.maxWidth.Some? && config.posX.Some? && config.posY.Some?
  }

  /** With every key present the two copies agree on the style: the strict
      copy only differs by raising where the other takes a default. */
  lemma StrictAgreesWhenComplete(config: TemplateSpec)
    requires Complete(config)
    ensures StrictStyle(config) == BatchDraw.DefaultStyle(config)
  {
  }

  /** `draw_templated_text` of main/test.py. The result is the sequence of
      `draw.text` calls made, or the exception raised (nothing is drawn
      then: every check precedes the first draw). */
  method DrawTemplatedText(config: TemplateSpec, text: string, fontOverride: Option<string>,
                           fonts: set<string>, m: Metrics)
    returns (r: Result<seq<DrawOp>, DrawError>)
    ensures ResolveFont(fonts, fontOverride, config.fontName).None? <==> r == Err(FontFileNotFound(GlobalDefaultFont))
    ensures ResolveFont(fonts, fontOverride, config.fontName).Some? ==>
      (config.color.None? ==> r == Err(MissingKey("color"))) &&
      (config.color.Some? && config.maxWidth.None? ==> r == Err(MissingKey("max_width_pixels"))) &&
      (config.color.Some? && config.maxWidth.Some? && config.posY.None? ==> r == Err(MissingKey("pos_y"))) &&
      (config.color.Some? && config.maxWidth.Some? && config.posY.Some? ==>
        (r.Err? <==> config.posX.None? && config.maxLines != Some(0)) &&
        (r.Err? ==> r == Err(MissingKey("pos_x"))))
    ensures r.Ok? ==>
      ResolveFont(fonts, fontOverride, config.fontName).Some? &&
      config.color.Some? && config.maxWidth.Some? && config.posY.Some? &&
      r.value == Layout(text, StrictStyle(config),
                        Font(ResolveFont(fonts, fontOverride, config.fontName).value, config.fontSize.GetOr(50)), m)
    ensures Complete(config) ==> r == BatchDraw.Drawn(config, text, fontOverride, fonts, m)
  {
    var file := ResolveFont(fonts, fontOverride, config.fontName);
    if file.None? {
      return Err(FontFileNotFound(GlobalDefaultFont));
    }
    var font := Font(file.value, config.fontSize.GetOr(50));
    if config.color.None? {
      return Err(MissingKey("color"));
    }
    var align := config.align.GetOr("left");
    if config.maxWidth.None? {
      return Err(MissingKey("max_width_pixels"));
    }
    var words := Split(text);
    SplitWords(text);
    var lines := WrapLines(words, config.maxWidth.value, m, font);
    lines := Truncate(lines, config.maxLines);
    if config.posY.None? {
      return Err(MissingKey("pos_y"));
    }
    // `config['pos_x']` is evaluated inside the drawing loop, before the
    // first `draw.text`: it raises only when there is a line to draw.
    if |lines| > 0 && config.posX.None? {
      return Err(MissingKey("pos_x"));
    }
    var style := Style(config.color.value, align, config.maxWidth.value, config.maxLines,
                       config.posX.GetOr(0), config.posY.value);
    var ops := PlaceLines(lines, style, font, m);
    if Complete(config) {
      StrictAgreesWhenComplete(config);
    }
    return Ok(ops);
  }
}
