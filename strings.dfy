/**
 * The handful of .NET string operations the reconciliation relies on:
 * ordinal case-insensitive comparison (StringComparer.OrdinalIgnoreCase),
 * string.IsNullOrWhiteSpace and string.EndsWith.
 */
module DotNetStrings {

  /** Simple upper-case mapping of one character, for the ASCII letters. */
  function AsciiUpper(c: char): char
  {
    if 'a' <= c <= 'z' then (c as int - 32) as char else c
  }

  /** The key under which OrdinalIgnoreCase compares a string: every character mapped to upper case. */
  function Fold(s: string): string
  {
    seq(|s|, i requires 0 <= i < |s| => AsciiUpper(s[i]))
  }

  /** string.Equals(a, b, StringComparison.OrdinalIgnoreCase). */
  predicate EqualsIgnoreCase(a: string, b: string)
  {
    Fold(a) == Fold(b)
  }

  /** Enumerable.Contains(names, name, StringComparer.OrdinalIgnoreCase). */
  predicate ContainsIgnoreCase(names: seq<string>, name: string)
  {
    exists i | 0 <= i < |names| :: EqualsIgnoreCase(names[i], name)
  }

  /** char.IsWhiteSpace: the Unicode space separators, the line and paragraph separators, U+0009-U+000D and U+0085. */
  predicate IsWhiteSpace(c: char)
  {
    || ('\U{9}' <= c <= '\U{D}')
    || c == '\U{20}' || c == '\U{85}' || c == '\U{A0}' || c == '\U{1680}'
    || ('\U{2000}' <= c <= '\U{200A}')
    || c == '\U{2028}' || c == '\U{2029}' || c == '\U{202F}' || c == '\U{205F}' || c == '\U{3000}'
  }

  /** string.IsNullOrWhiteSpace on a non-null string: empty, or made of white space only. */
  predicate IsNullOrWhiteSpace(s: string)
  {
    forall i | 0 <= i < |s| :: IsWhiteSpace(s[i])
  }

  /** An ordinal, case-sensitive suffix test. */
  predicate EndsWith(s: string, suffix: string)
  {
    |suffix| <= |s| && s[|s| - |suffix|..] == suffix
  }

  /** A folded string is its own key: OrdinalIgnoreCase finds a key under its folded spelling. */
  lemma FoldIdempotent(s: string)
    ensures Fold(Fold(s)) == Fold(s)
  {
  }

  /** Appending a suffix makes the string end with it. */
  lemma EndsWithAppended(s: string, suffix: string)
    ensures EndsWith(s + suffix, suffix)
  {
    assert (s + suffix)[|s|..] == suffix;
  }
}
