# Template-aware deck assembly, in Dafny

This project models the presentation-building core of ppt-genai
(`services/pptxService.ts`). It has two parts.

- **Theme extraction** (`parseTemplateFile`): the uploaded template is
  opened as an archive. The first entry whose name starts with `ppt/theme/`
  and ends with `.xml` is read as text. Three case-insensitive regular
  expressions are applied to that text:
  - `/<a:accent1[\s\S]*?<a:srgbClr\s+val="([0-9A-Fa-f]{6})"/i` gives the
    primary colour, which is upper-cased;
  - `/<a:majorFont[\s\S]*?<a:latin\s+typeface="([^"]+)"/i` gives the
    heading font;
  - `/<a:fontScheme[\s\S]*?<a:latin\s+typeface="([^"]+)"/i` is tried only
    when the majorFont pattern fails.
- **Deck assembly** (`createPresentation`):
  - Parse failures are caught and reported, and the deck is built anyway.
  - The title colour falls back to `000000` and the font to `Arial`. The
    body colour is always `363636`.
  - Every slide record, in order, becomes one slide with a styled title
    box, a bulleted body box holding the bullets joined with `"\n"`, and
    the speaker notes.

The modules, in dependency order:

| module | file | role |
|---|---|---|
| `Wrappers` | wrappers.dfy | `Option` (the source's `string \| null`), `Result` (its thrown errors) |
| `Text` | text.dfy | prefix/suffix tests, ASCII case folding, literal search, JavaScript's `\s` set, character-class runs, `join`/`split` |
| `Regex` | regex.dfy | executable evaluation of the one regex shape used, with its literals as data (`TailPattern`) |
| `RegexSpec` | regex_spec.dfy | declarative match/first-match predicates; proofs that the evaluator reports exactly the first match |
| `Theme` | theme.dfy | archive entries, theme-part selection, colour and font extraction, `ParseTemplateFile` |
| `ThemeSpec` | theme_spec.dfy | what extraction returns, stated against the declarative matches and the archive listing |
| `Deck` | deck.dfy | slide records, styling config, text boxes, output slides, the layout loop, `CreatePresentation` |
| `DeckSpec` | deck_spec.dfy | default fallback, theme override, colour/font well-formedness, bullets read-back, a worked example |

Regex semantics used. `String.prototype.match` with a non-global regex
returns the leftmost match. Among the matches starting there, the
backtracking engine takes the one whose lazy `[\s\S]*?` gap is shortest.
The greedy `\s+` and the capture group cannot backtrack into a different
successful match: the attribute name after `\s+` starts with a letter, and
the closing `"` is outside the capture class. So the first match is
unique, and `RegexSpec.IsFirstMatch` pins it down. Under the `i` flag
without `u`, case folding maps ASCII letters to upper case and maps no
other character onto an ASCII one. So comparing the patterns' ASCII
literals after `Text.FoldCase` is exact.

## Model

| member | source | states |
|---|---|---|
| `Theme.FindThemeEntry` | services/pptxService.ts:24-26 | the chosen index is a theme-part name with no theme-part name before it; no index is chosen exactly when no entry name qualifies |
| `ThemeSpec.ParseReadsFirstThemePart` | services/pptxService.ts:24-35 | the theme part read is the first entry in listing order named `ppt/theme/….xml`; its text alone decides the colour and font, and an unreadable one is an error naming it |
| `ThemeSpec.ParseWithoutThemePart` | services/pptxService.ts:21-52 | an archive with no theme part yields neither colour nor font, and no error |
| `ThemeSpec.FindThemeEntryPrefix` | services/pptxService.ts:24-26 | appending entries after the first theme part never changes which entry is chosen |
| `ThemeSpec.ParseIgnoresLaterEntries` | services/pptxService.ts:24-29 | appending entries after the first theme part never changes the parse result |
| `Theme.ParseTemplateFile` | services/pptxService.ts:13-53 | a missing JSZip and a non-archive are errors; any colour returned is six upper-case hex digits; any font returned is non-empty and free of `"` |
| `Theme.AccentColor` | services/pptxService.ts:32-35 | a colour found is six upper-case hex digits |
| `ThemeSpec.AccentColorAbsent` | services/pptxService.ts:32-35 | the colour is absent exactly when the accent-1 pattern has no match anywhere in the text |
| `ThemeSpec.AccentColorAcrossAnyGap` | services/pptxService.ts:32-35 | a colour is found whenever a well-formed `<a:srgbClr\s+val="hhhhhh"` follows the first `<a:accent1`, whatever text (closing tags included) lies between |
| `ThemeSpec.Accent2Leak` | services/pptxService.ts:32-35 | an accent 1 held as `<a:sysClr val="windowText"/>` followed by an accent 2 `<a:srgbClr val="aabbcc"/>` still yields a colour: the search runs past `</a:accent1>` |
| `ThemeSpec.AccentColorAfterPlainGap` | services/pptxService.ts:32-35 | when no `<` lies between `<a:accent1` and a well-formed `<a:srgbClr\s+val="hhhhhh"`, the colour is that `hhhhhh` upper-cased |
| `ThemeSpec.AccentColorOfSrgbAccent` | services/pptxService.ts:32-35 | `<a:accent1><a:srgbClr val="2E86AB"/></a:accent1>` gives the colour `2E86AB` |
| `ThemeSpec.AccentColorOfFirstMatch` | services/pptxService.ts:32-35 | when the pattern matches, the colour is the first match's capture upper-cased character by character |
| `Theme.ExtractTheme` | services/pptxService.ts:31-49 | both extractions run on the same theme text: a colour found is six upper-case hex digits, a font found is non-empty and free of `"` |
| `Theme.HeadingFont` | services/pptxService.ts:38-49 | a font found is non-empty and contains no `"` |
| `ThemeSpec.HeadingFontFromMajor` | services/pptxService.ts:38-42 | when the majorFont pattern matches, the font is its first match's capture, case preserved |
| `ThemeSpec.HeadingFontFallback` | services/pptxService.ts:43-49 | when the majorFont pattern has no match, the font is the fontScheme pattern's first-match capture |
| `ThemeSpec.HeadingFontAbsent` | services/pptxService.ts:38-49 | the font is absent exactly when neither font pattern matches |
| `Theme.TailsValid` | services/pptxService.ts:33-46 | the colour and font tails satisfy what makes their first match unique (attribute name starts with a letter, closing quote outside the class) |
| `Regex.LazyMatch` | services/pptxService.ts:32-34 | a capture returned satisfies the group's repetition count and character class |
| `Regex.TailCapture` | services/pptxService.ts:33 | the tail yields a capture exactly where it matches, and that capture satisfies the group's count and class |
| `Regex.FirstTail` | services/pptxService.ts:33 | the position returned is at or after the start of the lazy gap, and the tail matches there |
| `Regex.FirstTailSkipsNoMatch` | services/pptxService.ts:33 | the lazy gap stops no later than any position where the tail matches |
| `RegexSpec.TailCaptureIff` | services/pptxService.ts:32-47 | the evaluator's tail capture is `cap` exactly when some way of matching `<tag\s+attr"(group)"` at that position captures `cap` |
| `RegexSpec.HeadEndComplete` | services/pptxService.ts:32-47 | the greedy `\s+` has exactly one successful length, the whole run of white space |
| `RegexSpec.CaptureLenComplete` | services/pptxService.ts:32-47 | the capture group followed by `"` has exactly one way to match |
| `RegexSpec.MatchAcrossAnyGap` | services/pptxService.ts:33 | `open`, then any text at all, then a well-formed tail is a match of `open[\s\S]*?tail`: the lazy gap is bounded by nothing but the tail |
| `RegexSpec.FirstMatchAfterPlainGap` | services/pptxService.ts:32-35 | when no `<` lies between `open` and a well-formed tail beginning with `<`, the evaluator returns exactly that tail's capture |
| `RegexSpec.MatchAfterFirstTail` | services/pptxService.ts:32-34 | every match starts at or after the first `open`, and its tail is not before the first tail after that `open` |
| `RegexSpec.LazyMatchIsFirstMatch` | services/pptxService.ts:32-34 | the evaluator finds nothing exactly when the pattern has no match; otherwise it returns the capture of the leftmost, shortest-gap match |
| `RegexSpec.FirstMatchIsLazyMatch` | services/pptxService.ts:32-47 | whatever the first match captures is exactly what the evaluator returns |
| `Text.FindFrom` | services/pptxService.ts:33 | the index returned is an occurrence of the literal (case-insensitive) with none before it; nothing is returned only when there is no occurrence |
| `Text.UpperHex` | services/pptxService.ts:35 | `toUpperCase` on hex digits keeps the length and yields upper-case hex digits equal to the input up to case |
| `Text.Join` | services/pptxService.ts:98 | `join` of no items is the empty string; otherwise the result starts with the first item and ends with the last |
| `Text.JoinSnoc` | services/pptxService.ts:98 | joining one more item appends exactly one separator and that item, so the items appear in order with one separator between neighbours |
| `Text.UpperHexOfUpper` | services/pptxService.ts:35 | `toUpperCase` leaves a colour already written in upper-case hex unchanged |
| `Text.SplitJoin` | services/pptxService.ts:98 | splitting the `join`ed text on the separator gives back the items, when there is at least one and none contains the separator |
| `Deck.LoadTemplate` | services/pptxService.ts:64-74 | no file gives neither theme nor warning; a parse error becomes a warning and no theme; a successful parse gives its theme; never both a theme and a warning |
| `Deck.ConfigFor` | services/pptxService.ts:77-79 | a colour or font the template supplied wins; a missing one, or a missing template, leaves `000000` / `Arial`; the content colour is always `363636` |
| `Deck.TitleStyle` | services/pptxService.ts:85-95 | the title box is 32-point, bold, left-aligned, not bulleted, in the title colour and configured font, at (0.5, 0.25, 90%, 1) |
| `Deck.BodyStyle` | services/pptxService.ts:98-108 | the body box is 18-point, bulleted with line spacing 28, not bold, in the content colour and configured font, at (0.5, 1.5, 90%, 3.8) |
| `Deck.LayOutSlide` | services/pptxService.ts:82-111 | a record's slide carries its title verbatim, its bullets joined with line feeds, its notes verbatim even when empty, and the two fixed styles |
| `Deck.LayOutAll` | services/pptxService.ts:81-112 | the layout of a record list has exactly one slide per record |
| `DeckSpec.DefaultsWithoutTheme` | services/pptxService.ts:76-79 | without a template, or when parsing fails, the config is `000000` / `363636` / `Arial` |
| `DeckSpec.ThemeOverridesDefaults` | services/pptxService.ts:77-79 | each value the theme found replaces its default, each missing one keeps it; the body colour never changes |
| `DeckSpec.ConfigWellFormed` | services/pptxService.ts:77-79 | whatever the template, both colours are six upper-case hex digits and the font name is non-empty and free of `"` |
| `Deck.LayOutAllAt` | services/pptxService.ts:81-111 | slide `i` of the layout is record `i` laid out |
| `Deck.LayOutAllAppend` | services/pptxService.ts:81-112 | layout distributes over concatenation of the record list, so it neither drops, reorders nor merges records |
| `Deck.LayOutSlides` | services/pptxService.ts:81-112 | one slide per record in order, each with its record's title, joined bullets and verbatim notes, all with the same title and body styles |
| `Deck.CreatePresentation` | services/pptxService.ts:63-114 | the deck is written as `Generated-Presentation.pptx` with one slide per record in order; texts and notes come from the records; every slide uses the config resolved from the template; the warning is the caught parse error |
| `DeckSpec.BodyTextRecoversBullets` | services/pptxService.ts:98 | the body text split on line feeds is the bullet list, when the list is non-empty and no bullet holds a line feed |
| `DeckSpec.EmptyContentBody` | services/pptxService.ts:98 | a record without bullets gets an empty body text |
| `DeckSpec.IntroDeckScenario` | services/pptxService.ts:77-111 | one record, no template: one slide titled `Intro` with empty notes kept, default colours and `Arial` |
| `DeckSpec.IntroDeckBullets` | services/pptxService.ts:98 | that slide's body reads back as its two bullets |

## Left out

- JSZip itself (`file.arrayBuffer`, `JSZip.loadAsync`, `.async("text")`). It is a foreign library doing binary I/O and decompression. The archive is given as its entry list in `Object.keys` order. Each entry's text is already decoded, or marked unreadable. Bytes JSZip rejects are `NotAnArchive`.
- The PptxGenJS writer (`addSlide`, `addText`, `addNotes`, `writeFile`) and the `.pptx` serialisation. The deck is the value handed to the writer: a file name and slide descriptors.
- The early return when PptxGenJS is not loaded (services/pptxService.ts:56-61). `CreatePresentation` models the call once the library is present.
- `console.error` and `alert`, including the alert's message text. The caught error is kept as `Presentation.warning`.
- async/await ordering. Once its inputs are in hand, the modelled logic is sequential.
- Box coordinates and sizes (`0.5`, `'90%'`, `3.8`, …). They are opaque literals handed to the writer, with no arithmetic on them.
- UTF-16: JavaScript strings are sequences of UTF-16 code units. Here a string is a `seq<char>`. No pattern literal or class depends on the difference.
- The generation services, the React UI and its empty-list guard before assembly (`App.tsx`). None of them is part of this model.
- `Theme.ParseTemplateFile`: it does not model exceptions JSZip may raise while decompressing a chosen entry beyond "unreadable as text". All such failures are one error, `ThemeEntryUnreadable`.
- `Regex.LazyMatch`: its own contract gives only the capture's shape. Which match it takes is stated by `RegexSpec.LazyMatchIsFirstMatch` and `RegexSpec.FirstMatchIsLazyMatch`.
- `Theme.AccentColor`: its own contract gives only the colour's form. Which colour is stated by `ThemeSpec.AccentColorAbsent` and `ThemeSpec.AccentColorOfFirstMatch`.
- `Theme.ExtractTheme`: its own contract gives only the forms of the colour and font. Which values are stated by the `ThemeSpec` lemmas about `AccentColor` and `HeadingFont`.
- `Theme.HeadingFont`: its own contract gives only the font's form. Which font is stated by the three `ThemeSpec.HeadingFont…` lemmas.
- `Deck.LayOutAll`: its own contract gives only the length. The content of each slide is stated by `Deck.LayOutAllAt`.

Behaviour of the code that a reader might not expect, and that the model keeps:
- Notes are attached to every slide, even when empty: line 111 calls `addNotes` with no test.
- An empty slide list gives a zero-slide deck, not an error: `createPresentation` has no guard on it.
- The theme part must start with exactly `ppt/theme/`. The match is case-sensitive.
- The colour search is not confined to the `<a:accent1>` element. The first qualifying `<a:srgbClr` anywhere after the first `<a:accent1` is taken, so a colour is reported even when accent 1 uses a scheme or system colour and only a later element, such as accent 2, holds an sRGB value (`ThemeSpec.Accent2Leak`).
- Every error thrown while parsing the template is caught and reported, and the deck falls back to defaults. This covers JSZip missing, bytes that are not an archive and an unreadable theme part alike.
