/** Deck assembly (`createPresentation` in services/pptxService.ts): resolve
    the styling from the template, falling back to fixed defaults, then lay
    out every slide record, in order, as one slide with a title box, a
    bulleted body box and speaker notes.

    The presentation writer is replaced by the value it would be handed: a
    file name and a sequence of slide descriptors. Box coordinates are kept
    as the opaque literals the writer receives. */
module Deck {
  import opened Wrappers
  import opened Text
  import opened Theme

  /** One slide as the generator produces it (`Slide`). */
  datatype SlideRecord = SlideRecord(title: string, content: seq<string>, speakerNotes: string)

  /** The colours and font every slide uses. */
  datatype Config = Config(titleColor: string, contentColor: string, fontFace: string)

  const DefaultTitleColor: string := "000000"
  const ContentColor: string := "363636"
  const DefaultFontFace: string := "Arial"
  const OutputFileName: string := "Generated-Presentation.pptx"

  /** Position and size of a text box: `x`, `y`, `w`, `h` as written. */
  datatype Placement = Placement(x: string, y: string, w: string, h: string)

  /** The options object passed with a text box; `align` and `lineSpacing`
      are absent when the source leaves them out, `bold` and `bullet` are
      false when it does. */
  datatype TextStyle = TextStyle(
    place: Placement,
    fontSize: nat,
    bold: bool,
    fontFace: string,
    color: string,
    align: Option<string>,
    bullet: bool,
    lineSpacing: Option<nat>)

  datatype TextBox = TextBox(text: string, style: TextStyle)

  /** One output slide: its title box, its body box and its notes. */
  datatype OutSlide = OutSlide(title: TextBox, body: TextBox, notes: string)

  /** What is handed to the writer: the file name and the slides in order. */
  datatype OutDeck = OutDeck(fileName: string, slides: seq<OutSlide>)

  /** The outcome of reading the optional template: the theme, or the parse
      error that was caught and reported before the deck was built anyway. */
  datatype TemplateOutcome = TemplateOutcome(info: Option<ThemeInfo>, warning: Option<ParseError>)

  /** The built deck together with the parse error the user was alerted to, if any. */
  datatype Presentation = Presentation(deck: OutDeck, warning: Option<ParseError>)

  /** The `try`/`catch` around `parseTemplateFile`: no file means no theme
      and no warning; a thrown error is caught and reported, never fatal. */
  function LoadTemplate(jsZipLoaded: bool, templateFile: Option<TemplateFile>): (r: TemplateOutcome)
    ensures r.info.None? || r.warning.None?
    ensures templateFile.None? ==> r.info.None? && r.warning.None?
    ensures templateFile.Some? ==>
      match ParseTemplateFile(jsZipLoaded, templateFile.value)
      case Ok(info) => r.info == Some(info) && r.warning.None?
      case Err(e) => r.info.None? && r.warning == Some(e)
  {
    match templateFile
    case None => TemplateOutcome(None, None)
    case Some(file) =>
      match ParseTemplateFile(jsZipLoaded, file)
      case Ok(info) => TemplateOutcome(Some(info), None)
      case Err(e) => TemplateOutcome(None, Some(e))
  }

  /** `templateInfo?.primaryColor ?? '000000'` and `templateInfo?.fontName ?? 'Arial'`:
      a value the template supplied wins, a missing one (or a missing
      template) leaves the default; the body colour is fixed. */
  function ConfigFor(info: Option<ThemeInfo>): (r: Config)
    ensures info.Some? && info.value.primaryColor.Some? ==> r.titleColor == info.value.primaryColor.value
    ensures (info.None? || info.value.primaryColor.None?) ==> r.titleColor == DefaultTitleColor
    ensures info.Some? && info.value.fontName.Some? ==> r.fontFace == info.value.fontName.value
    ensures (info.None? || info.value.fontName.None?) ==> r.fontFace == DefaultFontFace
    ensures r.contentColor == ContentColor
  {
    var color := if info.Some? then info.value.primaryColor.GetOr(DefaultTitleColor) else DefaultTitleColor;
    var font := if info.Some? then info.value.fontName.GetOr(DefaultFontFace) else DefaultFontFace;
    Config(color, ContentColor, font)
  }

  /** Options of the title box: 32-point bold, left-aligned, no bullet, in
      the title colour and the configured font, in the top box. */
  function TitleStyle(cfg: Config): (r: TextStyle)
    ensures r.fontSize == 32 && r.bold && r.align == Some("left") && !r.bullet && r.lineSpacing.None?
    ensures r.color == cfg.titleColor && r.fontFace == cfg.fontFace
    ensures r.place == Placement("0.5", "0.25", "90%", "1")
  {
    TextStyle(Placement("0.5", "0.25", "90%", "1"), 32, true, cfg.fontFace, cfg.titleColor, Some("left"), false, None)
  }

  /** Options of the body box: 18-point bullets with 28-point line spacing,
      not bold, no alignment given, in the content colour and the configured
      font, in the box below the title. */
  function BodyStyle(cfg: Config): (r: TextStyle)
    ensures r.fontSize == 18 && !r.bold && r.align.None? && r.bullet && r.lineSpacing == Some(28)
    ensures r.color == cfg.contentColor && r.fontFace == cfg.fontFace
    ensures r.place == Placement("0.5", "1.5", "90%", "3.8")
  {
    TextStyle(Placement("0.5", "1.5", "90%", "3.8"), 18, false, cfg.fontFace, cfg.contentColor, None, true, Some(28))
  }

  /** The body text: the bullets joined with a line feed. */
  function BodyText(content: seq<string>): string {
    Join(content, "\n")
  }

  /** The slide laid out for one record: its title verbatim, its bullets
      joined, its notes verbatim (even when empty), in the two fixed styles. */
  function LayOutSlide(cfg: Config, rec: SlideRecord): (r: OutSlide)
    ensures r.title.text == rec.title && r.body.text == BodyText(rec.content) && r.notes == rec.speakerNotes
    ensures r.title.style == TitleStyle(cfg) && r.body.style == BodyStyle(cfg)
  {
    OutSlide(TextBox(rec.title, TitleStyle(cfg)), TextBox(BodyText(rec.content), BodyStyle(cfg)), rec.speakerNotes)
  }

  /** The slides laid out for a list of records, one per record. */
  function LayOutAll(cfg: Config, recs: seq<SlideRecord>): (r: seq<OutSlide>)
    ensures |r| == |recs|
    decreases |recs|
  {
    if |recs| == 0 then [] else [LayOutSlide(cfg, recs[0])] + LayOutAll(cfg, recs[1..])
  }

  /** Slide `i` of the laid-out list is the layout of record `i`. */
  lemma {:induction false} LayOutAllAt(cfg: Config, recs: seq<SlideRecord>, i: nat)
    requires i < |recs|
    ensures LayOutAll(cfg, recs)[i] == LayOutSlide(cfg, recs[i])
    decreases |recs|
  {
    if i > 0 {
      LayOutAllAt(cfg, recs[1..], i - 1);
    }
  }

  /** Laying out is a map: the layout of two lists one after the other is
      the two layouts one after the other. */
  lemma {:induction false} LayOutAllAppend(cfg: Config, a: seq<SlideRecord>, b: seq<SlideRecord>)
    ensures LayOutAll(cfg, a + b) == LayOutAll(cfg, a) + LayOutAll(cfg, b)
    decreases |a|
  {
    if |a| > 0 {
      assert (a + b)[0] == a[0] && (a + b)[1..] == a[1..] + b;
      LayOutAllAppend(cfg, a[1..], b);
      assert LayOutAll(cfg, a + b) == [LayOutSlide(cfg, a[0])] + (LayOutAll(cfg, a[1..]) + LayOutAll(cfg, b));
    } else {
      assert a + b == b;
    }
  }

  /** The `forEach` loop: one slide per record, in order, each carrying its
      record's title, joined bullets and notes, and the same two styles. */
  method LayOutSlides(cfg: Config, recs: seq<SlideRecord>) returns (out: seq<OutSlide>)
    ensures |out| == |recs|
    ensures out == LayOutAll(cfg, recs)
    ensures forall i :: 0 <= i < |recs| ==>
      && out[i].title.text == recs[i].title
      && out[i].body.text == BodyText(recs[i].content)
      && out[i].notes == recs[i].speakerNotes
    ensures forall i :: 0 <= i < |out| ==> out[i].title.style == TitleStyle(cfg) && out[i].body.style == BodyStyle(cfg)
  {
    out := [];
    var i := 0;
    while i < |recs|
      invariant i <= |recs| && |out| == i
      invariant forall k :: 0 <= k < i ==> out[k] == LayOutSlide(cfg, recs[k])
    {
      out := out + [LayOutSlide(cfg, recs[i])];
      i := i + 1;
    }
    forall k | 0 <= k < |recs|
      ensures out[k] == LayOutAll(cfg, recs)[k]
    {
      LayOutAllAt(cfg, recs, k);
    }
  }

  /** `createPresentation` once the writer library is present. */
  method CreatePresentation(recs: seq<SlideRecord>, jsZipLoaded: bool, templateFile: Option<TemplateFile>)
    returns (p: Presentation)
    ensures p.deck.fileName == OutputFileName
    ensures p.warning == LoadTemplate(jsZipLoaded, templateFile).warning
    ensures |p.deck.slides| == |recs|
    ensures forall i :: 0 <= i < |recs| ==>
      && p.deck.slides[i].title.text == recs[i].title
      && p.deck.slides[i].body.text == BodyText(recs[i].content)
      && p.deck.slides[i].notes == recs[i].speakerNotes
    ensures forall i :: 0 <= i < |recs| ==>
      var cfg := ConfigFor(LoadTemplate(jsZipLoaded, templateFile).info);
      p.deck.slides[i].title.style == TitleStyle(cfg) && p.deck.slides[i].body.style == BodyStyle(cfg)
  {
    var outcome := LoadTemplate(jsZipLoaded, templateFile);
    var cfg := ConfigFor(outcome.info);
    var slides := LayOutSlides(cfg, recs);
    p := Presentation(OutDeck(OutputFileName, slides), outcome.warning);
  }
}
