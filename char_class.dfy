/** The Unicode character classes that the name patterns of `FullName` use.
    Each class is given by the code point ranges that this model assigns to it:
    the Japanese blocks, ASCII, Latin-1 and the full-width forms are listed as
    in the Unicode 15 tables (Scripts.txt, ScriptExtensions.txt, PropList.txt);
    code points outside the listed ranges belong to no class. */
module CharClass {

  /** \p{Hiragana}: Script=Hiragana. */
  predicate Hiragana(c: char) {
    var n := c as int;
    || 0x3041 <= n <= 0x3096
    || 0x309D <= n <= 0x309F
    || 0x1B001 <= n <= 0x1B11F
    || n == 0x1B132
    || 0x1B150 <= n <= 0x1B152
    || n == 0x1F200
  }

  /** \p{Katakana}: Script=Katakana (the class `kata_pt` and `all_kana_pt` use). */
  predicate Katakana(c: char) {
    var n := c as int;
    || 0x30A1 <= n <= 0x30FA
    || 0x30FD <= n <= 0x30FF
    || 0x31F0 <= n <= 0x31FF
    || 0x32D0 <= n <= 0x32FE
    || 0x3300 <= n <= 0x3357
    || 0xFF66 <= n <= 0xFF6F
    || 0xFF71 <= n <= 0xFF9D
    || 0x1AFF0 <= n <= 0x1AFF3
    || 0x1AFF5 <= n <= 0x1AFFB
    || 0x1AFFD <= n <= 0x1AFFE
    || n == 0x1B000
    || 0x1B120 <= n <= 0x1B122
    || n == 0x1B155
    || 0x1B164 <= n <= 0x1B167
  }

  /** \p{Script_extensions=Katakana}: the Katakana script together with the
      common punctuation, brackets, voicing marks and the prolonged sound
      mark that Japanese text shares between the kana scripts. */
  predicate KatakanaExt(c: char) {
    var n := c as int;
    || Katakana(c)
    || 0x3001 <= n <= 0x3003
    || 0x3008 <= n <= 0x3011
    || 0x3013 <= n <= 0x301F
    || 0x3030 <= n <= 0x3035
    || n == 0x3037
    || 0x303C <= n <= 0x303D
    || 0x3099 <= n <= 0x309C
    || n == 0x30A0
    || 0x30FB <= n <= 0x30FC
    || 0xFF61 <= n <= 0xFF65
    || n == 0xFF70
    || 0xFF9E <= n <= 0xFF9F
  }

  /** \p{Han}: Script=Han. */
  predicate Han(c: char) {
    var n := c as int;
    || 0x2E80 <= n <= 0x2E99
    || 0x2E9B <= n <= 0x2EF3
    || 0x2F00 <= n <= 0x2FD5
    || n == 0x3005
    || n == 0x3007
    || 0x3021 <= n <= 0x3029
    || 0x3038 <= n <= 0x303B
    || 0x3400 <= n <= 0x4DBF
    || 0x4E00 <= n <= 0x9FFF
    || 0xF900 <= n <= 0xFA6D
    || 0xFA70 <= n <= 0xFAD9
    || 0x16FE2 <= n <= 0x16FE3
    || 0x16FF0 <= n <= 0x16FF1
    || 0x20000 <= n <= 0x2A6DF
    || 0x2A700 <= n <= 0x2EBE0
    || 0x2F800 <= n <= 0x2FA1D
    || 0x30000 <= n <= 0x323AF
  }

  /** \s: the White_Space property. */
  predicate Space(c: char) {
    var n := c as int;
    || 0x09 <= n <= 0x0D
    || n == 0x20
    || n == 0x85
    || n == 0xA0
    || n == 0x1680
    || 0x2000 <= n <= 0x200A
    || 0x2028 <= n <= 0x2029
    || n == 0x202F
    || n == 0x205F
    || n == 0x3000
  }

  /** \w: letters, marks, decimal digits, connector punctuation and the join
      controls (ASCII, Latin-1 and Latin Extended letters, the kana and Han
      letters, and the full-width digits and letters). */
  predicate Word(c: char) {
    var n := c as int;
    || 0x30 <= n <= 0x39
    || 0x41 <= n <= 0x5A
    || n == 0x5F
    || 0x61 <= n <= 0x7A
    || n == 0xAA || n == 0xB5 || n == 0xBA
    || 0xC0 <= n <= 0xD6
    || 0xD8 <= n <= 0xF6
    || 0xF8 <= n <= 0x2C1
    || 0x300 <= n <= 0x36F
    || 0x200C <= n <= 0x200D
    || 0x203F <= n <= 0x2040
    || 0x3005 <= n <= 0x3007
    || 0x3021 <= n <= 0x302F
    || 0x3031 <= n <= 0x3035
    || 0x3038 <= n <= 0x303C
    || 0x3041 <= n <= 0x3096
    || 0x3099 <= n <= 0x309A
    || 0x309D <= n <= 0x309F
    || 0x30A1 <= n <= 0x30FA
    || 0x30FC <= n <= 0x30FF
    || 0x31F0 <= n <= 0x31FF
    || 0x3400 <= n <= 0x4DBF
    || 0x4E00 <= n <= 0x9FFF
    || 0xF900 <= n <= 0xFA6D
    || 0xFA70 <= n <= 0xFAD9
    || 0xFF10 <= n <= 0xFF19
    || 0xFF21 <= n <= 0xFF3A
    || n == 0xFF3F
    || 0xFF41 <= n <= 0xFF5A
    || 0xFF66 <= n <= 0xFF9F
    || 0x1B000 <= n <= 0x1B122
    || 0x20000 <= n <= 0x323AF
  }

  /** A character of the `last` and `first` groups of `ja_pt`. */
  predicate NameChar(c: char) {
    Hiragana(c) || KatakanaExt(c) || Han(c)
  }

  /** A character of the `kana_last` and `kana_first` groups of `ja_pt`. */
  predicate ReadingChar(c: char) {
    Hiragana(c) || KatakanaExt(c) || Word(c)
  }

  /** A character of `all_kana_pt`. */
  predicate KanaChar(c: char) {
    Hiragana(c) || Katakana(c)
  }

  predicate NotSpace(c: char) {
    !Space(c)
  }

  /** The full-width opening parenthesis that separates a name from its reading. */
  const OpenParen: char := '\U{FF08}'

  /** Every character of `s` is in class `p`. */
  predicate All(s: string, p: char -> bool) {
    forall k {:trigger p(s[k])} | 0 <= k < |s| :: p(s[k])
  }

  lemma NameCharNotSpace(c: char)
    ensures NameChar(c) ==> !Space(c)
    ensures KatakanaExt(c) ==> !Space(c)
  {
  }

  lemma ReadingCharNotSpace(c: char)
    ensures ReadingChar(c) ==> !Space(c)
  {
  }

  lemma OpenParenInNoClass()
    ensures !NameChar(OpenParen) && !ReadingChar(OpenParen) && !Space(OpenParen)
  {
  }
}
