# Photo personalisation batch system: a Dafny model

This project models the core of a small photo personalisation system. The system
draws customer text onto template pictures, assembles the pictures into PDF
documents, sends batches of orders to a local rendering API, and collects PDF and
font files into one folder. The model has these parts:

- **Text layout** (`TextLayout`, `Words`). `draw_templated_text` exists in three
  near-identical copies. Each picks a font file by priority, with a fallback to
  `sao.ttf`. It then greedily word-wraps the text by measured pixel width,
  truncates the lines to `max_lines`, and places every line from the alignment and
  a 1.25× line height. Measuring is an abstract bounding-box function `Metrics`.
  Python's `str.split()`, `str.strip()` and the space-joined lines are modelled
  character by character.
- **Strict copy** (`ApiRender`, main/test.py). `color`, `max_width_pixels`,
  `pos_y` and `pos_x` are indexed with `[]`, so a missing key is an error.
- **Defaulting copy** (`BatchDraw`, run_pdf.py and main/processar_agenda.py).
  Every missing key takes a fixed default.
- **Batch assemblers** (`Documents`, `PdfBatch`, `TwoPageBatch`).
  - `processar_lote_pdf` builds one document per request from its ordered page list.
  - `processar_pedidos_pdf_duas_paginas` writes on the first page of a base PDF and
    keeps its second page. The temporary folder it uses is a class whose set of file
    names is updated in place.
  - Both are specified by a fold over the requests. The fold gives the output folder
    and the success counter after the batch.
- **HTTP batch senders** (`BatchSend`, `JsonSender`, `SheetSender`).
  - They cover `processar_lote_local_json` and `processar_lote_local`.
  - The POST is an input: `post(k)` is how the k-th POST of the batch ends (a status
    code, a read timeout, a connection error, or any other exception of the HTTP
    library). A connect timeout is a connection error: `ConnectTimeout` is a subclass
    of both `ConnectionError` and `Timeout`, and both senders catch `ConnectionError`
    first, so it ends the batch. Only a read timeout is a failure that lets the batch
    go on.
  - Records are dictionaries of scalars read with `dict.get`, and Python truthiness
    is modelled.
- **File collector** (`Collector`, `processar_arquivos_universal`). The output
  folder is a class whose map of names grows in place. The destination name
  follows `PurePath.suffix`, and extensions are matched case-sensitively, as
  pathlib does on POSIX.

Every loop the source runs is a method with loop invariants. Each method is proved
equal to a specification function, and the properties are proved about those
functions as lemmas.

Behaviours of the code worth noting:

- **Font fallback.** When the chosen font file (the override, or else the template's
  font) is missing, the code falls back straight to `sao.ttf`. It does not try the
  template's font first. `TextLayout.MissingOverrideSkipsTemplateFont` states this.
- **Position keys.** A template without `pos_x`/`pos_y` is not rejected by the
  defaulting copy; it takes position 10.
- **Collector comment.** A comment in main/coletor_universal.py says that a PDF and a
  font in the same folder conflict. They get different output names, because the
  suffix is part of the name (`Collector.SameFolderDifferentSuffix`).

## Model

| member | source | states |
|---|---|---|
| Common.IntToStr | main/enviar_lote.py:118 | `str()` of an integer: non-empty, with a leading `-` exactly for negative numbers |
| Common.DigitsRoundTrip | main/enviar_lote.py:118 | the decimal digits produced for a natural number denote that number |
| Words.SplitWords | main/test.py:118 | every piece of `str.split()` is a non-empty run without whitespace |
| Words.SplitBlank | main/test.py:118 | a string of whitespace only splits into no words |
| Words.SplitJoin | main/test.py:118-139 | splitting a line built from words by single spaces gives back those words |
| Words.StripExtend | main/test.py:123 | `f"{current_line} {word}".strip()` is the line extended by the word, with no leading space when the line is empty |
| TextLayout.ChooseFontName | main/test.py:85-89 | the override when truthy, else the template's `font_name` when truthy, else `sao.ttf` |
| TextLayout.ResolveFont | main/test.py:91-99 | the chosen file when it exists, else `sao.ttf` when that exists, else the FileNotFoundError case; the result is always in the font store |
| TextLayout.MissingOverrideSkipsTemplateFont | main/test.py:94-96 | a missing override falls back to `sao.ttf` even when the template's font exists |
| TextLayout.WrapCount | main/test.py:121-139 | the number of lines is one plus the number of words that failed the fit test at the end of the line being built |
| TextLayout.WrapPrefixesFit | main/test.py:123-132 | every join was accepted: each prefix of a line that ends in an added word passed the fit test; only a later line's first word is placed untested |
| TextLayout.WrapAdvance | main/test.py:123-137 | one loop step: the stripped test line is the extended line; it is kept when it fits, otherwise the current line is closed and the word starts the next |
| TextLayout.WrapWord | main/test.py:121-137 | one iteration of the loop: the emitted lines and the current line stay those of the greedy pass over one more word |
| TextLayout.WrapLines | main/test.py:115-139 | the wrapping loop returns exactly the greedy pass's lines |
| TextLayout.WrapKeepsWords | main/test.py:118-139 | the lines' words, in order, are exactly the input words |
| TextLayout.WrapFits | main/test.py:130-132 | a line of two or more words, or a one-word first line, passes the loop's fit test (with `Fits`: its measured width is at most `max_width_pixels`) |
| TextLayout.WrapLaterLinesNonEmpty | main/test.py:133-137 | only the first line can be empty |
| TextLayout.WrapBreaks | main/test.py:133-137 | every line break is forced: the previous line extended by the next line's first word fails the fit test |
| TextLayout.WrapFirstLine | main/test.py:121-139 | the first line is empty iff there are no words or the first word alone fails the fit test; in that case the first word starts the second line |
| TextLayout.WrapLineWords | main/test.py:118-139 | each line splits back into the words placed on it, and together they are the input words |
| TextLayout.WrapNoWords | main/test.py:139 | text without words wraps to the single line `""` |
| TextLayout.Truncate | main/test.py:142-143 | `lines[:max_lines]`: a prefix of length min(max_lines, count); no change when the key is absent |
| TextLayout.DrawX | main/test.py:160-165 | centre: the line's midpoint is the box's midpoint; right: the line ends at `pos_x + max_width`; otherwise x is `pos_x` |
| TextLayout.LineOffsetIsProduct | main/test.py:146-176 | adding the line height once per drawn line puts line k at k line heights below the first |
| TextLayout.Place | main/test.py:149-176 | one draw call per line, in order; call k draws line k with its x from the alignment and its y from the running offset |
| TextLayout.PlaceLines | main/test.py:146-176 | the drawing loop emits one `draw.text` per line, with `current_y` advanced by the line height after each |
| TextLayout.LayoutText | main/test.py:118-176 | split, wrap, truncate and draw equal the layout function |
| TextLayout.LayoutLines | main/test.py:142-176 | one draw per kept line, in order; line k's visual top is `pos_y + k * line_height`; font and fill as resolved |
| TextLayout.LayoutWords | main/test.py:118-143 | the drawn words are a prefix of the text's words, and all of them when nothing is truncated |
| TextLayout.LayoutBlankText | main/test.py:118-176 | blank text draws one empty line at the template's position, or nothing when `max_lines` is 0 |
| TextLayout.LayoutNoWords | main/test.py:139-176 | a text with no words draws the single empty line of its wrap, or nothing when `max_lines` is 0 |
| TextLayout.PlaceSingle | main/test.py:142-176 | a single line is drawn at `pos_y` minus its own top offset, with x from the alignment, unless `max_lines` is 0 |
| ApiRender.DrawTemplatedText | main/test.py:71-176 | the font error iff no font resolves; then KeyError on `color`, `max_width_pixels`, `pos_y` in that order, and on `pos_x` iff a line is drawn; otherwise the layout with the strict style; with all four keys present it draws exactly what the defaulting copy draws |
| ApiRender.StrictAgreesWhenComplete | main/test.py:102-165 | with `color`, `max_width_pixels`, `pos_x` and `pos_y` all present, the strict style is the defaulting copy's style |
| BatchDraw.TemplateFont | run_pdf.py:43-58 | a font exists iff the priority-and-fallback chain finds a file; the file loaded is the one that chain resolves to; its size is `font_size` or 50 |
| BatchDraw.FontSizeDefault | run_pdf.py:57 | a template without `font_size` draws exactly what one with `font_size` 50 draws |
| BatchDraw.ColorDefault | run_pdf.py:60 | a template without `color` draws exactly what one with `color` `#000000` draws |
| BatchDraw.AlignDefault | run_pdf.py:61 | a template without `align` draws exactly what one with `align` `left` draws |
| BatchDraw.MaxWidthDefault | run_pdf.py:63 | a template without `max_width_pixels` draws exactly what one with width 9999 draws |
| BatchDraw.PosXDefault | run_pdf.py:100-105 | a template without `pos_x` draws exactly what one with `pos_x` 10 draws |
| BatchDraw.PosYDefault | run_pdf.py:87 | a template without `pos_y` draws exactly what one with `pos_y` 10 draws |
| BatchDraw.Drawn | run_pdf.py:42-113 | the only error is the missing fallback font |
| BatchDraw.DrawTemplatedText | run_pdf.py:42-113 | the drawing code equals `Drawn`, and it draws at least one line unless `max_lines` is 0; the copy in main/processar_agenda.py (lines 49-125) has the same priority, fallback and defaults and is this same member |
| Documents.Succeeded | run_pdf.py:202 | the success counter never exceeds the number of requests |
| Documents.PublishFrame | run_pdf.py:193-199 | the output folder gains exactly the saved names, and no other file changes |
| Documents.PublishLastWriter | run_pdf.py:193-199 | a name holds the document of the last request that saved under it |
| Documents.SucceededAppend | run_pdf.py:134-214 | requests are counted independently: the count for a batch is the sum of the counts for its parts |
| Documents.SucceededCounts | run_pdf.py:202 | the counter equals the number of saved requests |
| PdfBatch.RenderPage | run_pdf.py:159-180 | an unknown template fails before a missing picture; a page that renders is drawn on its own picture |
| PdfBatch.Kept | run_pdf.py:154-156 | the kept entries all have an image name and a text |
| PdfBatch.RenderWithKept | run_pdf.py:149-181 | for any per-entry step that skips exactly the skipped entries: the fold succeeds iff every kept entry succeeds, and its pages are then theirs, in order |
| PdfBatch.RenderPagesKept | run_pdf.py:149-181 | rendering succeeds iff every kept page renders; the pages are then the kept pages in `paginas` order |
| PdfBatch.RenderPagesFailureSticks | run_pdf.py:159-169 | after a page fails, later pages cannot rescue the request |
| PdfBatch.KeptContains | run_pdf.py:154-156 | every entry that is not skipped is among the kept pages |
| PdfBatch.AssemblePdf | run_pdf.py:135-205 | a request without `output_pdf` or `paginas` is skipped; a saved document is the rendered pages under `output_pdf` and is never empty |
| PdfBatch.Outcomes | run_pdf.py:134-205 | one outcome per request |
| PdfBatch.OutcomesAt | run_pdf.py:134-205 | the outcome of request i is the assembly of request i alone: requests are handled independently and in order |
| PdfBatch.SavedPages | run_pdf.py:149-199 | a saved document holds the kept pages in order, each drawn by the defaulting layout on its template picture |
| PdfBatch.BadPageAbortsRequest | run_pdf.py:159-169 | an unknown template or a missing picture on any kept page fails the whole request |
| PdfBatch.RenderOnePage | run_pdf.py:158-180 | the checks and drawing for one kept entry give the page rendering: unknown template, then missing picture, then unreadable picture or missing font |
| PdfBatch.RenderRequestPages | run_pdf.py:147-181 | the page loop equals the page fold, stopping at the first failure |
| PdfBatch.ProcessRequest | run_pdf.py:135-205 | one iteration of the batch loop gives the request's assembly |
| PdfBatch.ProcessarLotePdf | run_pdf.py:117-214 | the output folder and success counter after the batch are the fold over all requests; a failing request never stops later ones |
| TwoPageBatch.AssembleTwoPages | main/processar_agenda.py:182-188 | it is skipped as malformed exactly when `output_pdf`, `input_pdf_base` or `pagina_frente` is missing |
| TwoPageBatch.Outcomes | main/processar_agenda.py:181-261 | one outcome per request |
| TwoPageBatch.OutcomesAt | main/processar_agenda.py:181-261 | the outcome of request i is the assembly of request i alone: requests are handled independently and in order |
| TwoPageBatch.SavedTwoPages | main/processar_agenda.py:202-250 | a saved document is page 0 with the front text drawn, then page 1 untouched; the base PDF has at least two pages |
| TwoPageBatch.ShortBaseFails | main/processar_agenda.py:136-137 | a base PDF with fewer than two pages, or that cannot be opened, never yields a document |
| TwoPageBatch.TempNamesDistinct | main/processar_agenda.py:197-198 | the front and back temporary names never clash, and differ from request to request |
| TwoPageBatch.TempPrefixInjective | main/processar_agenda.py:197-198 | different request indices give different temporary names |
| TwoPageBatch.TempDir.Wipe | main/processar_agenda.py:177-178 | the temporary folder is empty afterwards |
| TwoPageBatch.TempDir.RemoveIfExists | main/processar_agenda.py:259-260 | the file is gone afterwards and nothing else changes |
| TwoPageBatch.ExtractToPng | main/processar_agenda.py:128-153 | the temporary image appears exactly when extraction succeeds |
| TwoPageBatch.ProcessRequest | main/processar_agenda.py:182-261 | the outcome is the request's assembly; unless it was skipped early, both temporary images are gone afterwards and nothing else changes |
| TwoPageBatch.ProcessarPedidosPdfDuasPaginas | main/processar_agenda.py:156-269 | the output folder and counter are the fold over the requests; the temporary folder is empty between requests and at the end |
| BatchSend.Offers | run.py:31-51 | each record, in order, offers its payload iff it passes the sender's test, and is skipped otherwise; run.py tests `ID`, `imagem` and `texto` for truthiness, and main/enviar_lote.py (lines 109-121) tests its three columns |
| BatchSend.Valid | run.py:37-39 | the payloads of the records that are sent are no more than the records |
| BatchSend.AcceptedCount | run.py:59-61 | successes among n POSTs are at most n |
| BatchSend.SendSpec | run.py:28-71 | the valid payloads are sent in order up to and including the first POST that meets a connection error or another exception; the successes are the 200 answers; without an abort every valid payload is sent |
| BatchSend.AbortedIff | run.py:56-83 | the batch is abandoned iff one of its POSTs meets a connection error (which returns) or another exception (caught outside the loop) |
| BatchSend.AbortSticks | run.py:65-67 | after an abort, later records change nothing |
| BatchSend.FailedCounts | run.py:73-76 | the failures are the skipped records plus the non-200 POSTs, and are never negative |
| JsonSender.BuildPayload | run.py:42-51 | the payload's keys are `order_id`, `template_image`, `text_to_add`, plus `font_override` exactly when `fonte` is truthy |
| JsonSender.JsonReport | run.py:22-24 | an empty list sends nothing |
| JsonSender.ValidRows | run.py:37-39 | every record kept has a truthy id, image and text |
| JsonSender.ValidPayloads | run.py:28-51 | the payloads offered are the valid records' payloads, in input order |
| JsonSender.SentPayloads | run.py:28-69 | what is sent is a prefix of the valid records' payloads, each with a truthy id, image and text; all are sent unless a connection error or another exception aborts, which then came from the last POST |
| JsonSender.ProcessarLoteLocalJson | run.py:12-76 | the loop's report equals the fold's report |
| SheetSender.BuildPayload | main/enviar_lote.py:117-121 | exactly three keys; the order id is its `str()`, and there is never a font override |
| SheetSender.OrderIdText | main/enviar_lote.py:118 | a truthy id is sent as non-empty text: a string unchanged, a positive integer as digits with that value |
| SheetSender.SheetReport | main/enviar_lote.py:105-145 | no special case for an empty list: it reports 0 of 0 |
| SheetSender.NoFontOverride | main/enviar_lote.py:117-121 | no sent payload carries a font override, and every order id sent is a string |
| SheetSender.ValidBuilt | main/enviar_lote.py:117-121 | every payload offered has exactly the three keys |
| SheetSender.ProcessarLoteLocal | main/enviar_lote.py:102-145 | the loop's report equals the fold's report |
| Collector.LastDot | main/coletor_universal.py:59 | the index of the last dot, or -1 when there is none |
| Collector.SuffixShape | main/coletor_universal.py:59 | a suffix is empty, or a proper tail of the name that starts at its last dot and has a character after it |
| Collector.Matching | main/coletor_universal.py:41 | `rglob('*'+ext)` finds exactly the files whose name ends with `ext`, compared case-sensitively |
| Collector.FoundForMembers | main/coletor_universal.py:39-41 | a file is found iff its name ends with one of the extensions |
| Collector.ExtensionsDisjoint | main/coletor_universal.py:13 | no name ends with two of the extensions (`.woff` does not pick up `.woff2`) |
| Collector.ExtensionTails | main/coletor_universal.py:13 | no extension ends with another |
| Collector.TailOfTail | main/coletor_universal.py:41 | of two tails of one name, the shorter is a tail of the longer |
| Collector.SuffixOfMatched | main/coletor_universal.py:56-65 | a found file keeps its extension as suffix, except a name that is just the extension, whose suffix is empty |
| Collector.SameFolderDifferentSuffix | main/coletor_universal.py:56-65 | files in the same folder with different suffixes get different output names |
| Collector.CollectCounts | main/coletor_universal.py:49-79 | copied + conflicts ≤ found, with equality when no copy fails; the folder grows by one name per copy |
| Collector.CollectFrame | main/coletor_universal.py:70-77 | existing files are never replaced; every new name holds a found file whose output name it is |
| Collector.CollectFirstWins | main/coletor_universal.py:52-77 | the first found file with a free output name is the one copied under it |
| Collector.CollectAbsent | main/coletor_universal.py:52-77 | a name no found file maps to stays free |
| Collector.Universal | main/coletor_universal.py:31-83 | a run reports counts only when the source folder exists and something was found |
| Collector.Folder.Copy | main/coletor_universal.py:75 | the copied file appears under its name; nothing else changes |
| Collector.GatherFound | main/coletor_universal.py:35-41 | the search loop builds the found list extension by extension |
| Collector.CopyAll | main/coletor_universal.py:49-79 | the copy loop leaves the folder and the counters as the fold does |
| Collector.ProcessarArquivosUniversal | main/coletor_universal.py:19-83 | a missing source folder or an empty search changes nothing; otherwise the folder and counters are the fold over the found files |

## Left out

- Loading the template registry and the request lists from JSON files is not
  modelled. They are parameters: a map of `TemplateSpec` and sequences of requests.
  A malformed file and values of unexpected JSON types (a non-string name, a float
  size) are not modelled.
- Pillow and PyMuPDF are parameters:
  - measuring is one bounding-box function, and the chains of alternative
    measuring methods collapse into it;
  - opening an image is `opens`, a PDF's page count is `pageCount`, and saving a
    document is `saves`;
  - loading a font file that exists but is broken, and rasterisation at 300 dpi,
    are not modelled;
  - the PNG that extraction writes is assumed to be written whenever the page exists.
- Python floats are exact reals in the positions and the line height.
- `max_lines` is a natural number. A negative or null `max_lines` is not modelled,
  because negative slicing is not modelled.
- Logging, `time.sleep`, timing, closing images and freeing memory are not modelled.
- The FastAPI endpoint of main/test.py is not modelled: it is transport.
- The Tkinter editors are not modelled.
- Google Drive and Sheets synchronisation (main/enviar_lote.py) is not modelled,
  nor the HTTP call itself: each POST's outcome is the input `post(k)`.
- An exception of the POST other than a connection error or a timeout is caught by
  the outer handler of run.py but propagates out of `processar_lote_local`. The model
  reports both as an abandoned batch: in neither case is a summary logged.
- Pandas may hand float cells (such as NaN) to `processar_lote_local`; only strings,
  integers and null are modelled.
- Collector:
  - the walk order of `rglob` is the order of the input file list;
  - a directory whose name matches an extension is not modelled;
  - matching is case-sensitive, as pathlib is on POSIX; on Windows `rglob('*.pdf')`
    also finds `A.PDF`, which is then copied with the suffix `.PDF`;
  - a copy that fails is assumed to leave no partial file;
  - file contents and metadata are not modelled: a copied entry records the source
    file it came from.
- The output folders of the PDF batches are maps from names to documents. A save
  that fails is assumed to leave no partial file.
- Collector.Universal: it does not state the per-file conflict count on its own.
  Conflicts are counted by the `Collect` fold, and `CollectCounts` bounds them.
