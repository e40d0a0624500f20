/** The one shape of regular expression the theme extractor uses,
    `/<open>[\s\S]*?<tail>/i` with the tail `<tagOpen>\s+<attr>(<class><count>)"`,
    evaluated the way `String.prototype.match` evaluates it: the leftmost
    match, and among matches starting there the one with the shortest lazy
    gap. The pattern's literals are data here, so every fact below holds for
    any tail, not only for the two the extractor names. */
module Regex {
  import opened Wrappers
  import opened Text

  /** The repetition on the capture group: `{n}` or `+`. */
  datatype Count = Exactly(n: nat) | OneOrMore

  predicate CountOk(c: Count, len: nat) {
    match c
    case Exactly(n) => len == n
    case OneOrMore => 0 < len
  }

  /** The tail `<tagOpen>\s+<attr>(<cls><count>)"`; `attr` ends with the
      opening quote of the attribute value. */
  datatype TailPattern = TailPattern(tagOpen: string, attr: string, cls: CharClass, count: Count)

  /** What the proofs need of a tail: the attribute name starts with an
      ASCII letter (so the greedy `\s+` has one way to end), and the closing
      quote is not in the capture class. */
  predicate ValidTail(tp: TailPattern) {
    0 < |tp.attr| && IsAsciiLetter(tp.attr[0]) && !InClass(tp.cls, '"')
  }

  /** What the capture group accepts. */
  predicate CaptureOk(tp: TailPattern, cap: string) {
    CountOk(tp.count, |cap|) && forall m :: 0 <= m < |cap| ==> InClass(tp.cls, cap[m])
  }

  /** The length of the capture group read from index `q` when it and the
      closing `"` after it match there. The quote is outside the class, so
      the group is the whole run of class characters at `q`. */
  function CaptureLen(tp: TailPattern, s: string, q: nat): (r: Option<nat>)
    requires q <= |s|
    ensures r.Some? ==> q + r.value < |s| && s[q + r.value] == '"'
  {
    var n := RunLength(s, q, tp.cls);
    if CountOk(tp.count, n) && q + n < |s| && s[q + n] == '"' then Some(n) else None
  }

  /** The index just past `<tagOpen>\s+<attr>` when that much of the tail
      matches at `j`; the greedy `\s+` takes the whole run of spaces. */
  function HeadEnd(tp: TailPattern, s: string, j: nat): (r: Option<nat>)
    ensures r.Some? ==> j + |tp.tagOpen| < r.value <= |s|
  {
    if !MatchesAt(s, j, tp.tagOpen) then None
    else
      MatchesAtWithin(s, j, tp.tagOpen);
      var w := j + |tp.tagOpen|;
      var k := RunLength(s, w, RegexSpace);
      if k == 0 || !MatchesAt(s, w + k, tp.attr) then None
      else
        MatchesAtWithin(s, w + k, tp.attr);
        Some(w + k + |tp.attr|)
  }

  /** Where a capture group sits in the searched text. */
  datatype Span = Span(start: nat, len: nat)

  /** Where the capture group sits when the tail matches at `j`. */
  function TailAt(tp: TailPattern, s: string, j: nat): (r: Option<Span>)
    ensures r.Some? ==> j + |tp.tagOpen| < r.value.start
    ensures r.Some? ==> r.value.start + r.value.len < |s|
  {
    var q := HeadEnd(tp, s, j);
    if q.None? then None
    else
      var n := CaptureLen(tp, s, q.value);
      if n.None? then None else Some(Span(q.value, n.value))
  }

  /** The text a span of `s` covers. */
  function SpanText(s: string, sp: Span): (r: string)
    requires sp.start + sp.len <= |s|
    ensures |r| == sp.len && forall m :: 0 <= m < |r| ==> r[m] == s[sp.start + m]
  {
    s[sp.start..sp.start + sp.len]
  }

  /** The capture group's text when the tail matches at `j`. */
  function TailCapture(tp: TailPattern, s: string, j: nat): (r: Option<string>)
    ensures r.Some? <==> TailAt(tp, s, j).Some?
    ensures r.Some? ==> CaptureOk(tp, r.value)
  {
    match TailAt(tp, s, j)
    case None => None
    case Some(sp) =>
      RunLengthSpec(s, sp.start, tp.cls);
      var cap := SpanText(s, sp);
      assert forall m :: 0 <= m < |cap| ==> InClass(tp.cls, cap[m]);
      Some(cap)
  }

  /** The first index at or after `from` where the tail matches: the lazy
      `[\s\S]*?` tries the shortest gap first. */
  function FirstTail(tp: TailPattern, s: string, from: nat): (r: Option<nat>)
    ensures r.Some? ==> from <= r.value && TailAt(tp, s, r.value).Some?
    decreases |s| + 1 - from
  {
    if from > |s| then None
    else if TailAt(tp, s, from).Some? then Some(from)
    else FirstTail(tp, s, from + 1)
  }

  /** `FirstTail` skips no position where the tail matches. */
  lemma {:induction false} FirstTailSkipsNoMatch(tp: TailPattern, s: string, from: nat, j: nat)
    requires from <= j && TailAt(tp, s, j).Some?
    ensures FirstTail(tp, s, from).Some? && FirstTail(tp, s, from).value <= j
    decreases j - from
  {
    if TailAt(tp, s, from).None? {
      assert FirstTail(tp, s, from) == FirstTail(tp, s, from + 1);
      FirstTailSkipsNoMatch(tp, s, from + 1, j);
    }
  }

  /** `s.match(/<open>[\s\S]*?<tail>/i)?.[1]`: scan from the first occurrence
      of `open`; the search for the tail is not bounded by any closing tag. */
  function LazyMatch(s: string, open: string, tp: TailPattern): (r: Option<string>)
    ensures r.Some? ==> CaptureOk(tp, r.value)
  {
    match FindFrom(s, open, 0)
    case None => None
    case Some(p) =>
      match FirstTail(tp, s, p + |open|)
      case None => None
      case Some(j) => TailCapture(tp, s, j)
  }
}
