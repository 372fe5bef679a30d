/** `shortenMessage` (script.js:53): the caption shown for a spoken question.
    Lengths count `char`s, which equal JavaScript's UTF-16 code units for text
    inside the Basic Multilingual Plane. */
module Shorten {

  /** Longest message shown unabridged. */
  const MaxMessageLength: nat := 125
  const Ellipsis: string := "..."

  function Min(a: int, b: int): int { if a <= b then a else b }

  /** `message.length > 125 ? message.substring(0, 125) + "..." : message`. */
  function ShortenMessage(m: string): string {
    if |m| > MaxMessageLength then m[..MaxMessageLength] + Ellipsis else m
  }

  /** The caption never exceeds 128 characters, always starts with the first
      (up to) 125 characters of the message, and when the message is cut, the
      cut is marked by exactly one ellipsis. */
  lemma ShortenBounds(m: string)
    ensures |ShortenMessage(m)| <= MaxMessageLength + |Ellipsis|
    ensures m[..Min(|m|, MaxMessageLength)] <= ShortenMessage(m)
    ensures |ShortenMessage(m)| == if |m| <= MaxMessageLength then |m| else MaxMessageLength + |Ellipsis|
    ensures |m| > MaxMessageLength ==> ShortenMessage(m)[MaxMessageLength..] == Ellipsis
  {
    if |m| <= MaxMessageLength {
      assert m[..|m|] == m;
    }
  }

  /** A message of at most 125 characters, 125 included, is shown as it is. */
  lemma ShortenIdentity(m: string)
    requires |m| <= MaxMessageLength
    ensures ShortenMessage(m) == m
  {
  }

  /** A longer message is cut to its first 125 characters followed by "...". */
  lemma ShortenTruncates(m: string)
    requires |m| > MaxMessageLength
    ensures ShortenMessage(m) == m[..MaxMessageLength] + Ellipsis
  {
  }

  /** Shortening a shortened message changes nothing: the 128-character
      result of a cut shortens to itself again. */
  lemma ShortenIdempotent(m: string)
    ensures ShortenMessage(ShortenMessage(m)) == ShortenMessage(m)
  {
    var r := ShortenMessage(m);
    if |m| > MaxMessageLength {
      assert r[..MaxMessageLength] == m[..MaxMessageLength];
      assert r == r[..MaxMessageLength] + r[MaxMessageLength..];
    }
  }

  /** Hence "the message was left alone" is not the same as "the message was
      short": a 128-character message ending in "..." is long, yet comes back
      unchanged. */
  lemma LongFixedPoint(m: string)
    requires |m| == MaxMessageLength + |Ellipsis| && m[MaxMessageLength..] == Ellipsis
    ensures |m| > MaxMessageLength && ShortenMessage(m) == m
  {
    assert m == m[..MaxMessageLength] + m[MaxMessageLength..];
  }
}
