/**
 * `slugify` from the whitepaper heading extraction: lower-case the text, trim
 * it, drop every character that is not a word character, whitespace or a
 * hyphen, turn each run of whitespace, underscores and hyphens into a single
 * hyphen, and strip hyphens from both ends.
 *
 * The regular expressions carry no `u` flag, so `\w` is `[A-Za-z0-9_]` and
 * `\s` is the JavaScript whitespace set that `trim` also removes.
 */
module Slug {

  /** The characters matched by `\s` and removed by `String.prototype.trim`. */
  predicate IsSpace(c: char) {
    c == '\t' || c == '\n' || c == '\U{000B}' || c == '\U{000C}' || c == '\r' || c == ' '
    || c == '\U{00A0}' || c == '\U{1680}' || ('\U{2000}' <= c <= '\U{200A}')
    || c == '\U{2028}' || c == '\U{2029}' || c == '\U{202F}' || c == '\U{205F}'
    || c == '\U{3000}' || c == '\U{FEFF}'
  }

  predicate IsAsciiUpper(c: char) {
    'A' <= c <= 'Z'
  }

  /** An ASCII lower-case letter or digit: what a slug is made of, besides hyphens. */
  predicate IsAlnum(c: char) {
    'a' <= c <= 'z' || '0' <= c <= '9'
  }

  /** The characters matched by `\w` without the `u` flag. */
  predicate IsWordChar(c: char) {
    IsAlnum(c) || IsAsciiUpper(c) || c == '_'
  }

  /** The characters `[^\w\s-]` does not match, i.e. the ones the third step keeps. */
  predicate IsKept(c: char) {
    IsWordChar(c) || IsSpace(c) || c == '-'
  }

  /** The characters `[\s_-]` matches. */
  predicate IsSeparator(c: char) {
    IsSpace(c) || c == '_' || c == '-'
  }

  predicate IsSlugChar(c: char) {
    IsAlnum(c) || c == '-'
  }

  predicate NoUpper(s: string) {
    forall k :: 0 <= k < |s| ==> !IsAsciiUpper(s[k])
  }

  predicate NoDoubleHyphen(s: string) {
    forall k :: 0 <= k < |s| - 1 ==> !(s[k] == '-' && s[k + 1] == '-')
  }

  /** A well-formed anchor id: `[a-z0-9-]*`, no hyphen at either end, no `--`. */
  predicate IsSlug(s: string) {
    (forall k :: 0 <= k < |s| ==> IsSlugChar(s[k]))
    && (s != [] ==> s[0] != '-' && s[|s| - 1] != '-')
    && NoDoubleHyphen(s)
  }

  /**
   * `toLowerCase` on one character. ASCII letters are lowered; U+0130 and
   * U+212A are the only other characters whose lower-case form contains an
   * ASCII letter. Every other character is kept as it is. Digits, `_`, `-`,
   * ASCII lower-case letters and all whitespace have no other lower-case form;
   * any remaining character, and its real lower-case form alike, is neither a
   * word character nor whitespace, so the third step removes either one.
   */
  function LowerChar(c: char): string {
    if IsAsciiUpper(c) then [(c as int + 32) as char]
    else if c == '\U{0130}' then ['i', '\U{0307}']
    else if c == '\U{212A}' then ['k']
    else [c]
  }

  function ToLower(s: string): string {
    if s == [] then [] else LowerChar(s[0]) + ToLower(s[1..])
  }

  function TrimStart(s: string): string {
    if s != [] && IsSpace(s[0]) then TrimStart(s[1..]) else s
  }

  function TrimEnd(s: string): string {
    if s != [] && IsSpace(s[|s| - 1]) then TrimEnd(s[..|s| - 1]) else s
  }

  function Trim(s: string): string {
    TrimEnd(TrimStart(s))
  }

  /** `.replace(/[^\w\s-]/g, '')`. */
  function RemoveNonWord(s: string): string {
    if s == [] then []
    else (if IsKept(s[0]) then [s[0]] else []) + RemoveNonWord(s[1..])
  }

  /**
   * `.replace(/[\s_-]+/g, '-')`: each maximal run of separators becomes one
   * hyphen. `inRun` says whether the character before `s` was a separator
   * whose run has already been written as a hyphen.
   */
  function CollapseSeparators(s: string, inRun: bool): (r: string)
    ensures NoDoubleHyphen(r)
    ensures inRun ==> r == [] || r[0] != '-'
  {
    if s == [] then []
    else if IsSeparator(s[0]) then
      (if inRun then [] else ['-']) + CollapseSeparators(s[1..], true)
    else [s[0]] + CollapseSeparators(s[1..], false)
  }

  function DropLeadingHyphens(s: string): string {
    if s != [] && s[0] == '-' then DropLeadingHyphens(s[1..]) else s
  }

  function DropTrailingHyphens(s: string): string {
    if s != [] && s[|s| - 1] == '-' then DropTrailingHyphens(s[..|s| - 1]) else s
  }

  /** `.replace(/^-+|-+$/g, '')`. */
  function StripHyphens(s: string): string {
    DropTrailingHyphens(DropLeadingHyphens(s))
  }

  /** `slugify(text)`. */
  function Slugify(text: string): string {
    StripHyphens(CollapseSeparators(RemoveNonWord(Trim(ToLower(text))), false))
  }

  // ---------------------------------------------------------------------------
  // What each step keeps.

  lemma {:induction false} ToLowerNoUpper(s: string)
    ensures NoUpper(ToLower(s))
    decreases |s|
  {
    if s != [] {
      ToLowerNoUpper(s[1..]);
    }
  }

  lemma {:induction false} TrimStartIsSuffix(s: string)
    ensures |TrimStart(s)| <= |s| && TrimStart(s) == s[|s| - |TrimStart(s)|..]
    ensures TrimStart(s) != [] ==> !IsSpace(TrimStart(s)[0])
    decreases |s|
  {
    if s != [] && IsSpace(s[0]) {
      TrimStartIsSuffix(s[1..]);
    }
  }

  lemma {:induction false} TrimEndIsPrefix(s: string)
    ensures |TrimEnd(s)| <= |s| && TrimEnd(s) == s[..|TrimEnd(s)|]
    ensures TrimEnd(s) != [] ==> !IsSpace(TrimEnd(s)[|TrimEnd(s)| - 1])
    decreases |s|
  {
    if s != [] && IsSpace(s[|s| - 1]) {
      TrimEndIsPrefix(s[..|s| - 1]);
    }
  }

  lemma {:induction false} DropLeadingHyphensIsSuffix(s: string)
    ensures |DropLeadingHyphens(s)| <= |s| && DropLeadingHyphens(s) == s[|s| - |DropLeadingHyphens(s)|..]
    ensures DropLeadingHyphens(s) != [] ==> DropLeadingHyphens(s)[0] != '-'
    decreases |s|
  {
    if s != [] && s[0] == '-' {
      DropLeadingHyphensIsSuffix(s[1..]);
    }
  }

  lemma {:induction false} DropTrailingHyphensIsPrefix(s: string)
    ensures |DropTrailingHyphens(s)| <= |s| && DropTrailingHyphens(s) == s[..|DropTrailingHyphens(s)|]
    ensures DropTrailingHyphens(s) != [] ==> DropTrailingHyphens(s)[|DropTrailingHyphens(s)| - 1] != '-'
    decreases |s|
  {
    if s != [] && s[|s| - 1] == '-' {
      DropTrailingHyphensIsPrefix(s[..|s| - 1]);
    }
  }

  // ---------------------------------------------------------------------------
  // Shape: only [a-z0-9-], no hyphen at either end, never `--`.

  lemma SliceKeepsNoUpper(s: string, i: nat, j: nat)
    requires i <= j <= |s| && NoUpper(s)
    ensures NoUpper(s[i..j])
  {
    forall k | 0 <= k < j - i ensures !IsAsciiUpper(s[i..j][k]) {
      assert s[i..j][k] == s[i + k];
    }
  }

  lemma SliceKeepsNoDoubleHyphen(s: string, i: nat, j: nat)
    requires i <= j <= |s| && NoDoubleHyphen(s)
    ensures NoDoubleHyphen(s[i..j])
  {
    forall k | 0 <= k < j - i - 1 ensures !(s[i..j][k] == '-' && s[i..j][k + 1] == '-') {
      assert s[i..j][k] == s[i + k] && s[i..j][k + 1] == s[i + k + 1];
    }
  }

  /** Letters and digits, or separators: what is left after the third step. */
  predicate AlnumOrSeparator(s: string) {
    forall k :: 0 <= k < |s| ==> IsAlnum(s[k]) || IsSeparator(s[k])
  }

  predicate AllSlugChars(s: string) {
    forall k :: 0 <= k < |s| ==> IsSlugChar(s[k])
  }

  lemma {:induction false} RemoveNonWordOfLowered(s: string)
    requires NoUpper(s)
    ensures AlnumOrSeparator(RemoveNonWord(s))
    decreases |s|
  {
    if s != [] {
      RemoveNonWordOfLowered(s[1..]);
    }
  }

  lemma {:induction false} CollapseGivesSlugChars(s: string, inRun: bool)
    requires AlnumOrSeparator(s)
    ensures AllSlugChars(CollapseSeparators(s, inRun))
    decreases |s|
  {
    if s != [] {
      CollapseGivesSlugChars(s[1..], IsSeparator(s[0]));
    }
  }

  lemma SliceKeepsSlugChars(s: string, i: nat, j: nat)
    requires i <= j <= |s| && AllSlugChars(s)
    ensures AllSlugChars(s[i..j])
  {
    forall k | 0 <= k < j - i ensures IsSlugChar(s[i..j][k]) {
      assert s[i..j][k] == s[i + k];
    }
  }

  /** Every slug is well formed. */
  lemma SlugifyIsSlug(text: string)
    ensures IsSlug(Slugify(text))
  {
    var lowered := ToLower(text);
    ToLowerNoUpper(text);
    var start := TrimStart(lowered);
    TrimStartIsSuffix(lowered);
    var trimmed := TrimEnd(start);
    TrimEndIsPrefix(start);
    SliceKeepsNoUpper(lowered, |lowered| - |start|, |lowered|);
    SliceKeepsNoUpper(start, 0, |trimmed|);
    var kept := RemoveNonWord(trimmed);
    RemoveNonWordOfLowered(trimmed);
    var collapsed := CollapseSeparators(kept, false);
    CollapseGivesSlugChars(kept, false);
    var front := DropLeadingHyphens(collapsed);
    DropLeadingHyphensIsSuffix(collapsed);
    var slug := DropTrailingHyphens(front);
    DropTrailingHyphensIsPrefix(front);
    SliceKeepsNoDoubleHyphen(collapsed, |collapsed| - |front|, |collapsed|);
    SliceKeepsNoDoubleHyphen(front, 0, |slug|);
    SliceKeepsSlugChars(collapsed, |collapsed| - |front|, |collapsed|);
    SliceKeepsSlugChars(front, 0, |slug|);
    if slug != [] {
      assert slug[0] == front[0];
    }
  }

  // ---------------------------------------------------------------------------
  // Idempotence: every step leaves a slug as it is.

  lemma {:induction false} ToLowerKeepsSlug(s: string)
    requires forall k :: 0 <= k < |s| ==> IsSlugChar(s[k])
    ensures ToLower(s) == s
    decreases |s|
  {
    if s != [] {
      ToLowerKeepsSlug(s[1..]);
      assert LowerChar(s[0]) == [s[0]];
      assert s == [s[0]] + s[1..];
    }
  }

  lemma {:induction false} RemoveNonWordKeepsSlug(s: string)
    requires forall k :: 0 <= k < |s| ==> IsSlugChar(s[k])
    ensures RemoveNonWord(s) == s
    decreases |s|
  {
    if s != [] {
      RemoveNonWordKeepsSlug(s[1..]);
      assert s == [s[0]] + s[1..];
    }
  }

  lemma {:induction false} CollapseKeepsSlug(s: string, inRun: bool)
    requires forall k :: 0 <= k < |s| ==> IsSlugChar(s[k])
    requires NoDoubleHyphen(s)
    requires inRun ==> s == [] || s[0] != '-'
    ensures CollapseSeparators(s, inRun) == s
    decreases |s|
  {
    if s != [] {
      var rest := s[1..];
      assert rest == s[1..|s|];
      SliceKeepsNoDoubleHyphen(s, 1, |s|);
      if s[0] == '-' {
        assert rest != [] ==> rest[0] == s[1];
        CollapseKeepsSlug(rest, true);
        assert CollapseSeparators(s, inRun) == ['-'] + CollapseSeparators(rest, true);
      } else {
        assert !IsSeparator(s[0]);
        CollapseKeepsSlug(rest, false);
        assert CollapseSeparators(s, inRun) == [s[0]] + CollapseSeparators(rest, false);
      }
      assert s == [s[0]] + rest;
    }
  }

  /** Slugifying a slug changes nothing. */
  lemma SlugifyFixesSlugs(s: string)
    requires IsSlug(s)
    ensures Slugify(s) == s
  {
    ToLowerKeepsSlug(s);
    assert s != [] ==> !IsSpace(s[0]) && !IsSpace(s[|s| - 1]);
    assert TrimStart(s) == s;
    assert Trim(s) == s;
    RemoveNonWordKeepsSlug(s);
    CollapseKeepsSlug(s, false);
    assert DropLeadingHyphens(s) == s;
  }

  /** `slugify(slugify(s)) == slugify(s)`. */
  lemma SlugifyIdempotent(text: string)
    ensures Slugify(Slugify(text)) == Slugify(text)
  {
    SlugifyIsSlug(text);
    SlugifyFixesSlugs(Slugify(text));
  }

  // ---------------------------------------------------------------------------
  // Content: the slug keeps every ASCII letter and digit of the lowered text,
  // in order, and adds nothing but hyphens.

  /** The ASCII lower-case letters and digits of `s`, in order. */
  function Alnums(s: string): string {
    if s == [] then [] else (if IsAlnum(s[0]) then [s[0]] else []) + Alnums(s[1..])
  }

  lemma {:induction false} AlnumsConcat(a: string, b: string)
    ensures Alnums(a + b) == Alnums(a) + Alnums(b)
    decreases |a|
  {
    if a == [] {
      assert a + b == b;
    } else {
      var c := a + b;
      assert c[0] == a[0] && c[1..] == a[1..] + b;
      AlnumsConcat(a[1..], b);
      var h := if IsAlnum(a[0]) then [a[0]] else [];
      assert Alnums(c) == h + Alnums(c[1..]);
      assert Alnums(a) == h + Alnums(a[1..]);
    }
  }

  lemma {:induction false} TrimStartKeepsAlnums(s: string)
    ensures Alnums(TrimStart(s)) == Alnums(s)
    decreases |s|
  {
    if s != [] && IsSpace(s[0]) {
      TrimStartKeepsAlnums(s[1..]);
    }
  }

  lemma {:induction false} TrimEndKeepsAlnums(s: string)
    ensures Alnums(TrimEnd(s)) == Alnums(s)
    decreases |s|
  {
    if s != [] && IsSpace(s[|s| - 1]) {
      TrimEndKeepsAlnums(s[..|s| - 1]);
      assert s == s[..|s| - 1] + [s[|s| - 1]];
      AlnumsConcat(s[..|s| - 1], [s[|s| - 1]]);
    }
  }

  lemma {:induction false} RemoveNonWordKeepsAlnums(s: string)
    ensures Alnums(RemoveNonWord(s)) == Alnums(s)
    decreases |s|
  {
    if s != [] {
      RemoveNonWordKeepsAlnums(s[1..]);
      AlnumsConcat(if IsKept(s[0]) then [s[0]] else [], RemoveNonWord(s[1..]));
    }
  }

  lemma {:induction false} CollapseKeepsAlnums(s: string, inRun: bool)
    ensures Alnums(CollapseSeparators(s, inRun)) == Alnums(s)
    decreases |s|
  {
    if s != [] {
      CollapseKeepsAlnums(s[1..], IsSeparator(s[0]));
      if IsSeparator(s[0]) {
        AlnumsConcat(if inRun then [] else ['-'], CollapseSeparators(s[1..], true));
      } else {
        AlnumsConcat([s[0]], CollapseSeparators(s[1..], false));
      }
    }
  }

  lemma {:induction false} DropLeadingHyphensKeepsAlnums(s: string)
    ensures Alnums(DropLeadingHyphens(s)) == Alnums(s)
    decreases |s|
  {
    if s != [] && s[0] == '-' {
      DropLeadingHyphensKeepsAlnums(s[1..]);
    }
  }

  lemma {:induction false} DropTrailingHyphensKeepsAlnums(s: string)
    ensures Alnums(DropTrailingHyphens(s)) == Alnums(s)
    decreases |s|
  {
    if s != [] && s[|s| - 1] == '-' {
      DropTrailingHyphensKeepsAlnums(s[..|s| - 1]);
      assert s == s[..|s| - 1] + ['-'];
      AlnumsConcat(s[..|s| - 1], ['-']);
    }
  }

  /**
   * The slug holds exactly the ASCII letters and digits of the lower-cased
   * text, in their order; with `SlugifyIsSlug`, everything else in it is a
   * single hyphen between two of them.
   */
  lemma SlugifyKeepsAlnums(text: string)
    ensures Alnums(Slugify(text)) == Alnums(ToLower(text))
  {
    var lowered := ToLower(text);
    TrimStartKeepsAlnums(lowered);
    TrimEndKeepsAlnums(TrimStart(lowered));
    RemoveNonWordKeepsAlnums(Trim(lowered));
    CollapseKeepsAlnums(RemoveNonWord(Trim(lowered)), false);
    var collapsed := CollapseSeparators(RemoveNonWord(Trim(lowered)), false);
    DropLeadingHyphensKeepsAlnums(collapsed);
    DropTrailingHyphensKeepsAlnums(DropLeadingHyphens(collapsed));
  }
}
