/** Theme extraction from a presentation template (`parseTemplateFile` in
    services/pptxService.ts): pick the first theme part of the archive and
    pull the accent-1 colour and the heading font out of its XML text with
    three regular expressions rather than an XML parse.

    The archive is what JSZip exposes once it has loaded the file: the entry
    names in listing order, each with its text or, when it cannot be read as
    text, `Unreadable`. */
module Theme {
  import opened Wrappers
  import opened Text
  import opened Regex

  datatype EntryData = Readable(text: string) | Unreadable
  datatype Entry = Entry(name: string, data: EntryData)

  /** The uploaded template file: either bytes JSZip rejects or a loaded archive. */
  datatype TemplateFile = NotAnArchive | Archive(entries: seq<Entry>)

  /** `TemplateInfo`: both fields absent is a valid, silent outcome. */
  datatype ThemeInfo = ThemeInfo(primaryColor: Option<string>, fontName: Option<string>)

  /** The ways `parseTemplateFile` can throw. */
  datatype ParseError =
    | ZipLibraryMissing             // `JSZip` is not loaded
    | NotAZip                       // `JSZip.loadAsync` rejects the bytes
    | ThemeEntryUnreadable(name: string)  // the chosen entry cannot be read as text

  const ThemeDir: string := "ppt/theme/"
  const XmlSuffix: string := ".xml"

  const Accent1Open: string := "<a:accent1"
  const MajorFontOpen: string := "<a:majorFont"
  const FontSchemeOpen: string := "<a:fontScheme"

  /** The name test of the `find` that selects the theme part (case-sensitive). */
  predicate IsThemePartName(name: string) {
    StartsWith(name, ThemeDir) && EndsWith(name, XmlSuffix)
  }

  /** Index of the first entry, at or after `from`, whose name is a theme part. */
  function FindThemeEntry(entries: seq<Entry>, from: nat): (r: Option<nat>)
    ensures r.Some? ==> from <= r.value < |entries| && IsThemePartName(entries[r.value].name)
    ensures r.Some? ==> forall k :: from <= k < r.value ==> !IsThemePartName(entries[k].name)
    ensures r.None? <==> forall k :: from <= k < |entries| ==> !IsThemePartName(entries[k].name)
    decreases |entries| - from
  {
    if from >= |entries| then None
    else if IsThemePartName(entries[from].name) then Some(from)
    else FindThemeEntry(entries, from + 1)
  }

  /** The tail of the colour pattern: `<a:srgbClr\s+val="([0-9A-Fa-f]{6})"`. */
  const SrgbTail: TailPattern := TailPattern("<a:srgbClr", "val=\"", HexDigit, Exactly(6))

  /** The tail of both font patterns: `<a:latin\s+typeface="([^"]+)"`. */
  const LatinTail: TailPattern := TailPattern("<a:latin", "typeface=\"", NotQuote, OneOrMore)

  lemma TailsValid()
    ensures ValidTail(SrgbTail) && ValidTail(LatinTail)
  {
  }

  /** Six upper-case hexadecimal digits, the form of every colour the deck uses. */
  predicate IsHexColor(c: string) {
    |c| == 6 && forall m :: 0 <= m < 6 ==> IsUpperHexDigit(c[m])
  }

  /** The colour pattern: the upper-cased `val` of the first qualifying
      `<a:srgbClr` after the first `<a:accent1`. */
  function AccentColor(xml: string): (r: Option<string>)
    ensures r.Some? ==> IsHexColor(r.value)
  {
    match LazyMatch(xml, Accent1Open, SrgbTail)
    case None => None
    case Some(hex) => Some(UpperHex(hex))
  }

  /** The font patterns: `<a:majorFont` first, the `<a:fontScheme` pattern
      only when that fails. The typeface keeps its case. */
  function HeadingFont(xml: string): (r: Option<string>)
    ensures r.Some? ==> 0 < |r.value| && '"' !in r.value
  {
    var major := LazyMatch(xml, MajorFontOpen, LatinTail);
    var r := if major.Some? then major else LazyMatch(xml, FontSchemeOpen, LatinTail);
    assert r.Some? ==> forall m :: 0 <= m < |r.value| ==> r.value[m] != '"';
    r
  }

  /** Both extractions run on the same text, independently of each other. */
  function ExtractTheme(xml: string): (r: ThemeInfo)
    ensures r.primaryColor.Some? ==> IsHexColor(r.primaryColor.value)
    ensures r.fontName.Some? ==> 0 < |r.fontName.value| && '"' !in r.fontName.value
  {
    ThemeInfo(AccentColor(xml), HeadingFont(xml))
  }

  /** `parseTemplateFile`: `jsZipLoaded` says whether the JSZip global exists. */
  function ParseTemplateFile(jsZipLoaded: bool, file: TemplateFile): (r: Result<ThemeInfo, ParseError>)
    ensures !jsZipLoaded ==> r == Err(ZipLibraryMissing)
    ensures jsZipLoaded && file.NotAnArchive? ==> r == Err(NotAZip)
    ensures r.Ok? ==> file.Archive?
    ensures r.Ok? && r.value.primaryColor.Some? ==> IsHexColor(r.value.primaryColor.value)
    ensures r.Ok? && r.value.fontName.Some? ==> 0 < |r.value.fontName.value| && '"' !in r.value.fontName.value
  {
    if !jsZipLoaded then Err(ZipLibraryMissing)
    else
      match file
      case NotAnArchive => Err(NotAZip)
      case Archive(entries) =>
        match FindThemeEntry(entries, 0)
        case None => Ok(ThemeInfo(None, None))
        case Some(k) =>
          match entries[k].data
          case Unreadable => Err(ThemeEntryUnreadable(entries[k].name))
          case Readable(xml) => Ok(ExtractTheme(xml))
  }
}
