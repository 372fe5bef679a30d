/** JavaScript's `String.prototype.trim`, written out: strip the leading and
    trailing characters that ECMAScript counts as white space (section 12.2 of
    the ECMAScript Language Specification) or as line terminators (section
    12.3). A `string` stands for a JavaScript string whose characters all lie
    in the Basic Multilingual Plane, so that one `char` is one UTF-16 code
    unit. */
module Text {

  /** The white-space and line-terminator code points stripped by `trim()`:
      TAB, LF, VT, FF, CR, SPACE, NO-BREAK SPACE, OGHAM SPACE MARK, the spaces
      U+2000..U+200A, LINE and PARAGRAPH SEPARATOR, NARROW NO-BREAK SPACE,
      MEDIUM MATHEMATICAL SPACE, IDEOGRAPHIC SPACE and the BOM U+FEFF. */
  predicate IsWhitespace(c: char) {
    || '\U{0009}' <= c <= '\U{000D}' || c == '\U{0020}' || c == '\U{00A0}' || c == '\U{1680}'
    || '\U{2000}' <= c <= '\U{200A}' || c == '\U{2028}' || c == '\U{2029}' || c == '\U{202F}'
    || c == '\U{205F}' || c == '\U{3000}' || c == '\U{FEFF}'
  }

  /** Neither the first nor the last character is white space. */
  predicate IsTrimmed(s: string) {
    s == [] || (!IsWhitespace(s[0]) && !IsWhitespace(s[|s| - 1]))
  }

  predicate AllWhitespace(s: string) {
    forall k :: 0 <= k < |s| ==> IsWhitespace(s[k])
  }

  /** `r` is the slice of `s` starting at `i`, and everything of `s` outside
      that slice is white space. */
  predicate StripsTo(s: string, i: nat, r: string) {
    && i + |r| <= |s| && r == s[i..i + |r|]
    && (forall k :: 0 <= k < i ==> IsWhitespace(s[k]))
    && (forall k :: i + |r| <= k < |s| ==> IsWhitespace(s[k]))
  }

  /** From index `i` on, the first character that is not white space (or the
      end of `s`). */
  function SkipLeading(s: string, i: nat): (n: nat)
    requires i <= |s|
    ensures i <= n <= |s|
    ensures forall k :: i <= k < n ==> IsWhitespace(s[k])
    ensures n == |s| || !IsWhitespace(s[n])
    decreases |s| - i
  {
    if i < |s| && IsWhitespace(s[i]) then SkipLeading(s, i + 1) else i
  }

  /** Going down from index `j` but not below `lo`, the end of the last
      character that is not white space (or `lo`). */
  function SkipTrailing(s: string, lo: nat, j: nat): (n: nat)
    requires lo <= j <= |s|
    ensures lo <= n <= j
    ensures forall k :: n <= k < j ==> IsWhitespace(s[k])
    ensures n == lo || !IsWhitespace(s[n - 1])
  {
    if lo < j && IsWhitespace(s[j - 1]) then SkipTrailing(s, lo, j - 1) else j
  }

  /** Where the result of `trim()` starts in its input. */
  function TrimOffset(s: string): nat {
    SkipLeading(s, 0)
  }

  /** `s.trim()`: the slice of `s` between its leading and its trailing white
      space; neither end of it is white space. */
  function Trim(s: string): (r: string)
    ensures IsTrimmed(r)
  {
    var a := SkipLeading(s, 0);
    var b := SkipTrailing(s, a, |s|);
    assert a < b ==> !IsWhitespace(s[a]);
    s[a..b]
  }

  /** Only white space lies outside the result of `trim()`. */
  lemma TrimStrips(s: string)
    ensures StripsTo(s, TrimOffset(s), Trim(s))
  {
  }

  /** `trim()` gives the empty string exactly when its input is all white
      space. */
  lemma TrimEmpty(s: string)
    ensures Trim(s) == [] <==> AllWhitespace(s)
  {
    var a := SkipLeading(s, 0);
    assert a < |s| ==> !IsWhitespace(s[a]);
  }

  /** `Trim` is THE strip: any slice with no white space at its ends and only
      white space around it is `Trim(s)`. */
  lemma TrimUnique(s: string, i: nat, r: string)
    requires StripsTo(s, i, r) && IsTrimmed(r)
    ensures r == Trim(s)
  {
    TrimStrips(s);
    if r == [] {
      TrimEmpty(s);
      assert AllWhitespace(s) by {
        forall k | 0 <= k < |s| ensures IsWhitespace(s[k]) {
          if k < i {} else {}
        }
      }
    } else {
      assert s[i] == r[0];
      assert s[i + |r| - 1] == r[|r| - 1];
    }
  }

  /** Trimming a trimmed string changes nothing; in particular `trim()` is
      idempotent. */
  lemma TrimTrimmed(s: string)
    requires IsTrimmed(s)
    ensures Trim(s) == s
  {
    assert s[0..|s|] == s;
    TrimUnique(s, 0, s);
  }

  lemma TrimIdempotent(s: string)
    ensures Trim(Trim(s)) == Trim(s)
  {
    TrimTrimmed(Trim(s));
  }
}
