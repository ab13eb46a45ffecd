/** The text tests the entry's constructor relies on: Spring's
    `Assert.hasText`, which accepts a string exactly when
    `StringUtils.hasText` does, and the whitespace test it is built on,
    `java.lang.Character.isWhitespace`. */
module StringUtils {
  import opened Wrappers

  /** `java.lang.Character.isWhitespace`: the Unicode space, line and
      paragraph separators other than the non-breaking ones (U+00A0, U+2007,
      U+202F), plus the controls U+0009..U+000D and U+001C..U+001F. */
  predicate IsWhitespace(c: char) {
    var n := c as int;
    || 0x09 <= n <= 0x0D
    || 0x1C <= n <= 0x1F
    || n == 0x20
    || n == 0x1680
    || (0x2000 <= n <= 0x200A && n != 0x2007)
    || n == 0x2028
    || n == 0x2029
    || n == 0x205F
    || n == 0x3000
  }

  /** `StringUtils.containsText`: scans the string from the left and stops at
      the first character that is not whitespace. */
  function ContainsText(s: string): bool {
    if |s| == 0 then false
    else if !IsWhitespace(s[0]) then true
    else ContainsText(s[1..])
  }

  /** `StringUtils.hasText`: not null, not empty, and some character is not
      whitespace. */
  predicate HasText(s: Option<string>) {
    s.Some? && |s.value| > 0 && ContainsText(s.value)
  }

  /** The rejected values described independently of the scan: null, the
      empty string, or a string made only of whitespace. */
  predicate IsBlank(s: Option<string>) {
    || s.None?
    || |s.value| == 0
    || forall i :: 0 <= i < |s.value| ==> IsWhitespace(s.value[i])
  }

  /** The scan finds text exactly when some character is not whitespace. */
  lemma {:induction false} ContainsTextIffSomeNonWhitespace(s: string)
    ensures ContainsText(s) <==> exists i :: 0 <= i < |s| && !IsWhitespace(s[i])
  {
    if |s| > 0 && IsWhitespace(s[0]) {
      ContainsTextIffSomeNonWhitespace(s[1..]);
      if exists i :: 0 <= i < |s| && !IsWhitespace(s[i]) {
        var i :| 0 <= i < |s| && !IsWhitespace(s[i]);
        assert s[1..][i - 1] == s[i];
      }
    }
  }

  /** `hasText` rejects exactly the blank values. */
  lemma HasTextIffNotBlank(s: Option<string>)
    ensures HasText(s) <==> !IsBlank(s)
  {
    if s.Some? {
      ContainsTextIffSomeNonWhitespace(s.value);
    }
  }
}
