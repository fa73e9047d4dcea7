/** The defaulting copy of `draw_templated_text` shared by run_pdf.py and
    main/processar_agenda.py: every template key except the font may be
    absent and takes a fixed default. */
module BatchDraw {
  import opened Common
  import opened TextLayout

  const DefaultFontSize: int := 50
  const DefaultColor: string := "#000000"
  const DefaultAlign: string := "left"
  const DefaultMaxWidth: int := 9999
  const DefaultPos: int := 10

  /** The style drawn with: each absent key replaced by its default. */
  function DefaultStyle(config: TemplateSpec): Style {
    Style(config.color.GetOr(DefaultColor), config.align.GetOr(DefaultAlign),
          config.maxWidth.GetOr(DefaultMaxWidth), config.maxLines,
          config.posX.GetOr(DefaultPos), config.posY.GetOr(DefaultPos))
  }

  /** The font loaded for a template and an override, if any file is found. */
  function TemplateFont(config: TemplateSpec, fontOverride: Option<string>, fonts: set<string>): (f: Option<Font>)
    ensures f.Some? <==> ResolveFont(fonts, fontOverride, config.fontName).Some?
    ensures f.Some? ==> f.value.file == ResolveFont(fonts, fontOverride, config.fontName).value
    ensures f.Some? ==> f.value.file in fonts
    ensures f.Some? ==> f.value.size == (if config.fontSize.Some? then config.fontSize.value else DefaultFontSize)
  {
    match ResolveFont(fonts, fontOverride, config.fontName)
    case None => None
    case Some(file) => Some(Font(file, config.fontSize.GetOr(DefaultFontSize)))
  }

  /** What the defaulting `draw_templated_text` draws, or why it raises. */
  function Drawn(config: TemplateSpec, text: string, fontOverride: Option<string>, fonts: set<string>, m: Metrics)
    : (r: Result<seq<DrawOp>, DrawError>)
    ensures r.Err? <==> TemplateFont(config, fontOverride, fonts).None?
    ensures r.Err? ==> r.error == FontFileNotFound(GlobalDefaultFont)
  {
    match TemplateFont(config, fontOverride, fonts)
    case None => Err(FontFileNotFound(GlobalDefaultFont))
    case Some(font) => Ok(Layout(text, DefaultStyle(config), font, m))
  }

  // An absent key draws exactly what the key set to its default draws.

  lemma FontSizeDefault(config: TemplateSpec, text: string, fontOverride: Option<string>, fonts: set<string>, m: Metrics)
    ensures Drawn(config.(fontSize := None), text, fontOverride, fonts, m) ==
            Drawn(config.(fontSize := Some(DefaultFontSize)), text, fontOverride, fonts, m)
  {
  }

  lemma ColorDefault(config: TemplateSpec, text: string, fontOverride: Option<string>, fonts: set<string>, m: Metrics)
    ensures Drawn(config.(color := None), text, fontOverride, fonts, m) ==
            Drawn(config.(color := Some(DefaultColor)), text, fontOverride, fonts, m)
  {
  }

  lemma AlignDefault(config: TemplateSpec, text: string, fontOverride: Option<string>, fonts: set<string>, m: Metrics)
    ensures Drawn(config.(align := None), text, fontOverride, fonts, m) ==
            Drawn(config.(align := Some(DefaultAlign)), text, fontOverride, fonts, m)
  {
  }

  lemma MaxWidthDefault(config: TemplateSpec, text: string, fontOverride: Option<string>, fonts: set<string>, m: Metrics)
    ensures Drawn(config.(maxWidth := None), text, fontOverride, fonts, m) ==
            Drawn(config.(maxWidth := Some(DefaultMaxWidth)), text, fontOverride, fonts, m)
  {
  }

  lemma PosXDefault(config: TemplateSpec, text: string, fontOverride: Option<string>, fonts: set<string>, m: Metrics)
    ensures Drawn(config.(posX := None), text, fontOverride, fonts, m) ==
            Drawn(config.(posX := Some(DefaultPos)), text, fontOverride, fonts, m)
  {
  }

  lemma PosYDefault(config: TemplateSpec, text: string, fontOverride: Option<string>, fonts: set<string>, m: Metrics)
    ensures Drawn(config.(posY := None), text, fontOverride, fonts, m) ==
            Drawn(config.(posY := Some(DefaultPos)), text, fontOverride, fonts, m)
  {
  }

  /** `draw_templated_text` of run_pdf.py and main/processar_agenda.py. */
  method DrawTemplatedText(config: TemplateSpec, text: string, fontOverride: Option<string>,
                           fonts: set<string>, m: Metrics)
    returns (r: Result<seq<DrawOp>, DrawError>)
    ensures r == Drawn(config, text, fontOverride, fonts, m)
    ensures r.Ok? ==> |r.value| >= 1 || config.maxLines == Some(0)
  {
    var file := ResolveFont(fonts, fontOverride, config.fontName);
    if file.None? {
      return Err(FontFileNotFound(GlobalDefaultFont));
    }
    var font := Font(file.value, config.fontSize.GetOr(DefaultFontSize));
    var style := DefaultStyle(config);
    var ops := LayoutText(text, style, font, m);
    LayoutLines(text, style, font, m);
    return Ok(ops);
  }
}
