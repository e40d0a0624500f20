/** What `parseTemplateFile` promises, stated against the declarative
    reading of its regular expressions (`RegexSpec.IsFirstMatch`) and
    against the archive listing, rather than against the scanning code. */
module ThemeSpec {
  import opened Wrappers
  import opened Text
  import opened Regex
  import opened RegexSpec
  import opened Theme

  /** `c` is `hex` with every letter upper-cased (`toUpperCase` on ASCII). */
  ghost predicate IsUpperOf(c: string, hex: string) {
    |c| == |hex| && forall m :: 0 <= m < |c| ==> c[m] == FoldCase(hex[m])
  }

  /** The colour is absent exactly when the accent-1 pattern has no match. */
  lemma {:induction false} AccentColorAbsent(xml: string)
    ensures AccentColor(xml).None? <==> forall i: nat, j: nat, cap :: !IsMatch(xml, Accent1Open, SrgbTail, i, j, cap)
  {
    TailsValid();
    LazyMatchIsFirstMatch(xml, Accent1Open, SrgbTail);
  }

  /** When the accent-1 pattern matches, the colour is the capture of its
      first match, upper-cased. */
  lemma {:induction false} AccentColorOfFirstMatch(xml: string, i: nat, j: nat, cap: string)
    requires IsFirstMatch(xml, Accent1Open, SrgbTail, i, j, cap)
    ensures AccentColor(xml).Some? && IsUpperOf(AccentColor(xml).value, cap)
  {
    TailsValid();
    FirstMatchIsLazyMatch(xml, Accent1Open, SrgbTail, i, j, cap);
    var c := AccentColor(xml).value;
    forall m | 0 <= m < |c|
      ensures c[m] == FoldCase(cap[m])
    {
      FoldCaseHex(cap[m]);
    }
  }

  /** The font comes from the `<a:majorFont` pattern whenever that matches. */
  lemma {:induction false} HeadingFontFromMajor(xml: string, i: nat, j: nat, cap: string)
    requires IsFirstMatch(xml, MajorFontOpen, LatinTail, i, j, cap)
    ensures HeadingFont(xml) == Some(cap)
  {
    TailsValid();
    FirstMatchIsLazyMatch(xml, MajorFontOpen, LatinTail, i, j, cap);
  }

  /** Only when the `<a:majorFont` pattern has no match does the
      `<a:fontScheme` pattern decide the font. */
  lemma {:induction false} HeadingFontFallback(xml: string, i: nat, j: nat, cap: string)
    requires forall i': nat, j': nat, cap' :: !IsMatch(xml, MajorFontOpen, LatinTail, i', j', cap')
    requires IsFirstMatch(xml, FontSchemeOpen, LatinTail, i, j, cap)
    ensures HeadingFont(xml) == Some(cap)
  {
    TailsValid();
    LazyMatchIsFirstMatch(xml, MajorFontOpen, LatinTail);
    FirstMatchIsLazyMatch(xml, FontSchemeOpen, LatinTail, i, j, cap);
  }

  /** The font is absent exactly when neither font pattern matches. */
  lemma {:induction false} HeadingFontAbsent(xml: string)
    ensures HeadingFont(xml).None? <==>
      (forall i: nat, j: nat, cap :: !IsMatch(xml, MajorFontOpen, LatinTail, i, j, cap)) &&
      (forall i: nat, j: nat, cap :: !IsMatch(xml, FontSchemeOpen, LatinTail, i, j, cap))
  {
    TailsValid();
    LazyMatchIsFirstMatch(xml, MajorFontOpen, LatinTail);
    LazyMatchIsFirstMatch(xml, FontSchemeOpen, LatinTail);
  }

  /** The theme part read is the first entry, in listing order, whose name
      starts with `ppt/theme/` and ends with `.xml`; its text alone decides
      the result. */
  lemma {:induction false} ParseReadsFirstThemePart(entries: seq<Entry>, k: nat)
    requires k < |entries| && IsThemePartName(entries[k].name)
    requires forall k' :: 0 <= k' < k ==> !IsThemePartName(entries[k'].name)
    ensures entries[k].data.Unreadable? ==>
      ParseTemplateFile(true, Archive(entries)) == Err(ThemeEntryUnreadable(entries[k].name))
    ensures entries[k].data.Readable? ==>
      ParseTemplateFile(true, Archive(entries)) ==
      Ok(ThemeInfo(AccentColor(entries[k].data.text), HeadingFont(entries[k].data.text)))
  {
    assert FindThemeEntry(entries, 0) == Some(k);
  }

  /** An archive without a theme part parses to a template with neither
      colour nor font, not to an error. */
  lemma {:induction false} ParseWithoutThemePart(entries: seq<Entry>)
    requires forall k :: 0 <= k < |entries| ==> !IsThemePartName(entries[k].name)
    ensures ParseTemplateFile(true, Archive(entries)) == Ok(ThemeInfo(None, None))
  {
  }

  /** Choosing the theme part is blind to what follows it: entries appended
      after the first theme part never change the outcome. */
  lemma {:induction false} FindThemeEntryPrefix(entries: seq<Entry>, more: seq<Entry>, from: nat)
    requires FindThemeEntry(entries, from).Some?
    ensures FindThemeEntry(entries + more, from) == FindThemeEntry(entries, from)
    decreases |entries| - from
  {
    if !IsThemePartName(entries[from].name) {
      FindThemeEntryPrefix(entries, more, from + 1);
    }
  }

  lemma {:induction false} ParseIgnoresLaterEntries(entries: seq<Entry>, more: seq<Entry>)
    requires FindThemeEntry(entries, 0).Some?
    ensures ParseTemplateFile(true, Archive(entries + more)) == ParseTemplateFile(true, Archive(entries))
  {
    FindThemeEntryPrefix(entries, more, 0);
    var k := FindThemeEntry(entries, 0).value;
    assert (entries + more)[k] == entries[k];
  }

  /** Some colour is found whenever a well-formed `<a:srgbClr` follows the
      first `<a:accent1`, whatever lies in between, closing tags of other
      elements included. */
  lemma {:induction false} AccentColorAcrossAnyGap(gap: string, sp: string, hex: string, rest: string)
    requires 0 < |sp| && forall m :: 0 <= m < |sp| ==> IsRegexSpace(sp[m])
    requires |hex| == 6 && forall m :: 0 <= m < 6 ==> IsHexDigit(hex[m])
    ensures AccentColor(Accent1Open + gap + SrgbTail.tagOpen + sp + SrgbTail.attr + hex + "\"" + rest).Some?
  {
    var xml := Accent1Open + gap + SrgbTail.tagOpen + sp + SrgbTail.attr + hex + "\"" + rest;
    MatchAcrossAnyGap(Accent1Open, gap, SrgbTail, sp, hex, rest);
    AccentColorAbsent(xml);
  }

  /** An accent 1 given as a system colour, followed by an accent 2 given as
      an sRGB colour: the search runs past `</a:accent1>` and a colour is
      reported although accent 1 has none. */
  lemma {:induction false} Accent2Leak()
    ensures AccentColor(Accent1Open + "><a:sysClr val=\"windowText\"/></a:accent1><a:accent2>"
                        + SrgbTail.tagOpen + " " + SrgbTail.attr + "aabbcc" + "\"" + "/></a:accent2>").Some?
  {
    var hex := "aabbcc";
    assert IsRegexSpace(" "[0]);
    assert forall m :: 0 <= m < 6 ==> IsHexDigit(hex[m]);
    AccentColorAcrossAnyGap("><a:sysClr val=\"windowText\"/></a:accent1><a:accent2>", " ", hex, "/></a:accent2>");
  }

  /** When no `<` lies between `<a:accent1` and a well-formed `<a:srgbClr`,
      the colour is that element's `val`, upper-cased. */
  lemma {:induction false} AccentColorAfterPlainGap(gap: string, sp: string, hex: string, rest: string)
    requires '<' !in gap
    requires 0 < |sp| && forall m :: 0 <= m < |sp| ==> IsRegexSpace(sp[m])
    requires |hex| == 6 && forall m :: 0 <= m < 6 ==> IsHexDigit(hex[m])
    ensures var c := AccentColor(Accent1Open + gap + SrgbTail.tagOpen + sp + SrgbTail.attr + hex + "\"" + rest);
      c.Some? && IsUpperOf(c.value, hex)
  {
    TailsValid();
    FirstMatchAfterPlainGap(Accent1Open, gap, SrgbTail, sp, hex, rest);
    var c := AccentColor(Accent1Open + gap + SrgbTail.tagOpen + sp + SrgbTail.attr + hex + "\"" + rest).value;
    forall m | 0 <= m < |c|
      ensures c[m] == FoldCase(hex[m])
    {
      FoldCaseHex(hex[m]);
    }
  }

  /** The usual theme markup: `<a:accent1><a:srgbClr val="2E86AB"/></a:accent1>`
      yields the colour `2E86AB`. */
  lemma AccentColorOfSrgbAccent()
    ensures AccentColor(Accent1Open + ">" + SrgbTail.tagOpen + " " + SrgbTail.attr + "2E86AB" + "\"" + "/></a:accent1>")
      == Some("2E86AB")
  {
    var hex := "2E86AB";
    assert IsRegexSpace(" "[0]);
    assert '<' !in ">";
    assert forall m :: 0 <= m < 6 ==> IsUpperHexDigit(hex[m]);
    UpperHexOfUpper(hex);
    TailsValid();
    FirstMatchAfterPlainGap(Accent1Open, ">", SrgbTail, " ", hex, "/></a:accent1>");
  }
}
