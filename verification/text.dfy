/** String primitives the theme extractor and the deck assembler are built on:
    JavaScript's `startsWith`/`endsWith`, the case-insensitive literal matching
    and the `\s` class of a JavaScript regular expression with the `i` flag
    (and without `u`), and `Array.prototype.join` with its inverse `split`. */
module Text {
  import opened Wrappers

  /** `s.startsWith(p)`: case-sensitive. */
  predicate StartsWith(s: string, p: string) {
    |p| <= |s| && s[..|p|] == p
  }

  /** `s.endsWith(p)`: case-sensitive. */
  predicate EndsWith(s: string, p: string) {
    |p| <= |s| && s[|s| - |p|..] == p
  }

  /** The canonical form in which a non-unicode JavaScript regular expression
      with the `i` flag compares characters, restricted to what matters here:
      ASCII letters are upper-cased, and no other character is ever folded
      onto an ASCII one. */
  function FoldCase(c: char): char {
    if 'a' <= c <= 'z' then (c as int - 32) as char else c
  }

  predicate IsAsciiLetter(c: char) {
    ('a' <= c <= 'z') || ('A' <= c <= 'Z')
  }

  /** Only an ASCII letter folds onto the fold of an ASCII letter. */
  lemma FoldCaseLetter(c: char, a: char)
    requires IsAsciiLetter(a) && FoldCase(c) == FoldCase(a)
    ensures IsAsciiLetter(c)
  {
  }

  /** The literal `lit` occurs in `s` at index `i`, ignoring ASCII case. */
  predicate MatchesAt(s: string, i: nat, lit: string) {
    MatchesFrom(s, i, lit, 0)
  }

  /** `lit[k..]` occurs in `s` at index `i + k`, ignoring ASCII case. */
  predicate MatchesFrom(s: string, i: nat, lit: string, k: nat)
    requires k <= |lit|
    decreases |lit| - k
  {
    if k == |lit| then i + k <= |s|
    else i + k < |s| && FoldCase(s[i + k]) == FoldCase(lit[k]) && MatchesFrom(s, i, lit, k + 1)
  }

  lemma {:induction false} MatchesFromWithin(s: string, i: nat, lit: string, k: nat)
    requires k <= |lit| && MatchesFrom(s, i, lit, k)
    ensures i + |lit| <= |s|
    decreases |lit| - k
  {
    if k < |lit| {
      MatchesFromWithin(s, i, lit, k + 1);
    }
  }

  /** An occurrence lies inside the text. */
  lemma MatchesAtWithin(s: string, i: nat, lit: string)
    requires MatchesAt(s, i, lit)
    ensures i + |lit| <= |s|
  {
    MatchesFromWithin(s, i, lit, 0);
  }

  /** A literal occurs wherever the text holds exactly its characters. */
  lemma {:induction false} MatchesFromEqual(s: string, i: nat, lit: string, k: nat)
    requires k <= |lit| && i + |lit| <= |s|
    requires forall m :: k <= m < |lit| ==> s[i + m] == lit[m]
    ensures MatchesFrom(s, i, lit, k)
    decreases |lit| - k
  {
    if k < |lit| {
      MatchesFromEqual(s, i, lit, k + 1);
    }
  }

  lemma MatchesAtEqual(s: string, i: nat, lit: string)
    requires i + |lit| <= |s|
    requires forall m :: 0 <= m < |lit| ==> s[i + m] == lit[m]
    ensures MatchesAt(s, i, lit)
  {
    MatchesFromEqual(s, i, lit, 0);
  }

  /** The first index at or after `from` where `lit` occurs, ignoring ASCII case. */
  function FindFrom(s: string, lit: string, from: nat): (r: Option<nat>)
    ensures r.Some? ==> from <= r.value && MatchesAt(s, r.value, lit)
    ensures r.Some? ==> forall q :: from <= q < r.value ==> !MatchesAt(s, q, lit)
    ensures r.None? ==> forall q :: from <= q ==> !MatchesAt(s, q, lit)
    decreases |s| - from
  {
    if from + |lit| > |s| then
      assert forall q :: from <= q ==> !MatchesAt(s, q, lit) by {
        forall q | from <= q && MatchesAt(s, q, lit)
          ensures false
        {
          MatchesAtWithin(s, q, lit);
        }
      }
      None
    else if MatchesAt(s, from, lit) then Some(from)
    else FindFrom(s, lit, from + 1)
  }

  /** The JavaScript `\s` class: WhiteSpace and LineTerminator characters. */
  predicate IsRegexSpace(c: char) {
    || c == '\t' || c == '\n' || c == '\U{B}' || c == '\U{C}' || c == '\r' || c == ' '
    || c == '\U{A0}' || c == '\U{1680}' || ('\U{2000}' <= c <= '\U{200A}')
    || c == '\U{2028}' || c == '\U{2029}' || c == '\U{202F}' || c == '\U{205F}'
    || c == '\U{3000}' || c == '\U{FEFF}'
  }

  /** The class `[0-9A-Fa-f]`. */
  predicate IsHexDigit(c: char) {
    ('0' <= c <= '9') || ('A' <= c <= 'F') || ('a' <= c <= 'f')
  }

  /** A hexadecimal digit in canonical upper-case form. */
  predicate IsUpperHexDigit(c: char) {
    ('0' <= c <= '9') || ('A' <= c <= 'F')
  }

  /** The character classes the theme patterns repeat: `\s`, `[0-9A-Fa-f]`
      and `[^"]`. */
  datatype CharClass = RegexSpace | HexDigit | NotQuote

  predicate InClass(cls: CharClass, c: char) {
    match cls
    case RegexSpace => IsRegexSpace(c)
    case HexDigit => IsHexDigit(c)
    case NotQuote => c != '"'
  }

  /** Length of the longest run of `cls` characters starting at `from`: what
      a greedy repetition of the class consumes there. */
  function RunLength(s: string, from: nat, cls: CharClass): (n: nat)
    requires from <= |s|
    ensures from + n <= |s|
    decreases |s| - from
  {
    if from == |s| || !InClass(cls, s[from]) then 0 else 1 + RunLength(s, from + 1, cls)
  }

  /** The run holds only `cls` characters and is maximal. */
  lemma {:induction false} RunLengthSpec(s: string, from: nat, cls: CharClass)
    requires from <= |s|
    ensures forall m :: from <= m < from + RunLength(s, from, cls) ==> InClass(cls, s[m])
    ensures from + RunLength(s, from, cls) < |s| ==> !InClass(cls, s[from + RunLength(s, from, cls)])
    decreases |s| - from
  {
    if from < |s| && InClass(cls, s[from]) {
      RunLengthSpec(s, from + 1, cls);
    }
  }

  /** A run of `n` class characters that nothing in the class extends is
      the run `RunLength` measures. */
  lemma {:induction false} RunLengthUnique(s: string, from: nat, cls: CharClass, n: nat)
    requires from + n <= |s|
    requires forall m :: from <= m < from + n ==> InClass(cls, s[m])
    requires from + n == |s| || !InClass(cls, s[from + n])
    ensures RunLength(s, from, cls) == n
    decreases n
  {
    if n > 0 {
      RunLengthUnique(s, from + 1, cls, n - 1);
    }
  }

  /** `s.toUpperCase()` on a string of hexadecimal digits. */
  function UpperHex(s: string): (r: string)
    requires forall k :: 0 <= k < |s| ==> IsHexDigit(s[k])
    ensures |r| == |s|
    ensures forall k :: 0 <= k < |r| ==> IsUpperHexDigit(r[k]) && FoldCase(r[k]) == FoldCase(s[k])
  {
    var r := seq(|s|, k requires 0 <= k < |s| => FoldCase(s[k]));
    forall k | 0 <= k < |r|
      ensures IsUpperHexDigit(r[k]) && FoldCase(r[k]) == FoldCase(s[k])
    {
      FoldCaseHex(s[k]);
    }
    r
  }

  lemma FoldCaseHex(c: char)
    requires IsHexDigit(c)
    ensures IsUpperHexDigit(FoldCase(c)) && FoldCase(FoldCase(c)) == FoldCase(c)
  {
    if 'a' <= c <= 'f' {
      assert FoldCase(c) as int == c as int - 32;
    }
  }

  /** Upper-case hexadecimal digits are hexadecimal digits, and upper-casing
      a colour already in canonical form leaves it unchanged. */
  lemma UpperHexOfUpper(s: string)
    requires forall k :: 0 <= k < |s| ==> IsUpperHexDigit(s[k])
    ensures (forall k :: 0 <= k < |s| ==> IsHexDigit(s[k])) && UpperHex(s) == s
  {
    assert forall k :: 0 <= k < |s| ==> IsHexDigit(s[k]);
    var r := UpperHex(s);
    forall k | 0 <= k < |s|
      ensures r[k] == s[k]
    {
      assert FoldCase(s[k]) == s[k];
    }
  }

  /** `items.join(sep)`: the items in order, separated by `sep`; the empty
      list joins to the empty string. */
  function Join(items: seq<string>, sep: string): (r: string)
    ensures |items| == 0 ==> r == ""
    ensures |items| > 0 ==> StartsWith(r, items[0]) && EndsWith(r, items[|items| - 1])
    decreases |items|
  {
    if |items| == 0 then ""
    else if |items| == 1 then items[0]
    else
      var rest := Join(items[1..], sep);
      var r := items[0] + sep + rest;
      assert r[..|items[0]|] == items[0];
      assert r[|r| - |items[|items| - 1]|..] == rest[|rest| - |items[|items| - 1]|..];
      r
  }

  /** Joining one more item appends the separator and that item: every
      item after the first is preceded by exactly one `sep`. */
  lemma {:induction false} JoinSnoc(items: seq<string>, sep: string, x: string)
    requires 0 < |items|
    ensures Join(items + [x], sep) == Join(items, sep) + sep + x
    decreases |items|
  {
    if |items| == 1 {
      assert items + [x] == [items[0], x];
      assert (items + [x])[1..] == [x];
    } else {
      assert (items + [x])[1..] == items[1..] + [x];
      JoinSnoc(items[1..], sep, x);
    }
  }

  /** `s.split(sep)` for a one-character separator: the pieces between
      separators, in order; the empty string splits to one empty piece. */
  function Split(s: string, sep: char): (r: seq<string>)
    ensures |r| >= 1
    decreases |s|
  {
    if |s| == 0 then [""]
    else
      var rest := Split(s[1..], sep);
      if s[0] == sep then [""] + rest else [[s[0]] + rest[0]] + rest[1..]
  }

  lemma {:induction false} SplitWithoutSeparator(a: string, sep: char)
    requires sep !in a
    ensures Split(a, sep) == [a]
    decreases |a|
  {
    if |a| > 0 {
      SplitWithoutSeparator(a[1..], sep);
      assert [a[0]] + a[1..] == a;
    }
  }

  lemma {:induction false} SplitAfterPiece(a: string, b: string, sep: char)
    requires sep !in a
    ensures Split(a + [sep] + b, sep) == [a] + Split(b, sep)
    decreases |a|
  {
    var s := a + [sep] + b;
    if |a| == 0 {
      assert s[1..] == b;
    } else {
      assert s[1..] == a[1..] + [sep] + b;
      SplitAfterPiece(a[1..], b, sep);
      assert [a[0]] + a[1..] == a;
    }
  }

  /** Splitting the joined text on the separator gives the items back, as
      long as there is at least one item and none contains the separator. */
  lemma {:induction false} SplitJoin(items: seq<string>, sep: char)
    requires |items| > 0
    requires forall i :: 0 <= i < |items| ==> sep !in items[i]
    ensures Split(Join(items, [sep]), sep) == items
    decreases |items|
  {
    if |items| == 1 {
      SplitWithoutSeparator(items[0], sep);
    } else {
      SplitJoin(items[1..], sep);
      SplitAfterPiece(items[0], Join(items[1..], [sep]), sep);
      assert [items[0]] + items[1..] == items;
    }
  }
}
