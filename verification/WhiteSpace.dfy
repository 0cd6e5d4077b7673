/** What each language of the program trims away. */
module WhiteSpace {
  /** The White_Space property of Unicode, which Rust's `trim` removes. */
  predicate IsWhiteSpace(c: char) {
    || c == ' ' || '\t' <= c <= '\r' || c == '\U{0085}' || c == '\U{00A0}' || c == '\U{1680}'
    || '\U{2000}' <= c <= '\U{200A}' || c == '\U{2028}' || c == '\U{2029}' || c == '\U{202F}' || c == '\U{205F}'
    || c == '\U{3000}'
  }

  lemma CodesOfWhiteSpace(c: char)
    ensures IsWhiteSpace(c) <==>
              || c as int in {9, 10, 11, 12, 13, 32, 133, 160, 5760} || 8192 <= c as int <= 8202
              || c as int in {8232, 8233, 8239, 8287, 12288}
  {
  }

  /** What Python's `strip` and `split` remove. */
  predicate IsBlank(c: char) { IsWhiteSpace(c) || '\U{001C}' <= c <= '\U{001F}' }

  /** What JavaScript's `trim` removes. */
  predicate IsSpace(c: char) { (IsWhiteSpace(c) && c != '\U{0085}') || c == '\U{FEFF}' }
}
