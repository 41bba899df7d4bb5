/** `FullName._kata_to_hira`: the katakana-to-hiragana normalisation of readings. */
module Kana {
  import opened CharClass

  /** The distance between a katakana letter and its hiragana counterpart. */
  const KanaOffset: int := 0x60

  /** One character of `_kata_to_hira`: a character that `kata_pt` matches
      (Script=Katakana) is moved down by `KanaOffset`; any other is copied. */
  function ToHira(c: char): (h: char)
    ensures Katakana(c) ==> h as int == c as int - KanaOffset
    ensures !Katakana(c) ==> h == c
    ensures Space(h) <==> Space(c)
  {
    if Katakana(c) then (c as int - KanaOffset) as char else c
  }

  /** The letters of the katakana row U+30A1..U+30FA. */
  predicate InKatakanaRow(c: char) {
    0x30A1 <= c as int <= 0x30FA
  }

  predicate OutsideKatakanaRow(c: char) {
    !InKatakanaRow(c)
  }

  /** `_kata_to_hira(text)`: the text with every Script=Katakana character
      shifted down by 0x60 and every other character copied. */
  function KataToHira(s: string): (r: string)
    ensures |r| == |s|
    ensures forall k | 0 <= k < |s| :: r[k] == ToHira(s[k])
    ensures All(r, OutsideKatakanaRow)
  {
    if s == [] then [] else [ToHira(s[0])] + KataToHira(s[1..])
  }

  /** A text is returned unchanged exactly when it holds no Script=Katakana character. */
  lemma KataToHiraIdentity(s: string)
    ensures KataToHira(s) == s <==> !exists k | 0 <= k < |s| :: Katakana(s[k])
  {
    if exists k | 0 <= k < |s| :: Katakana(s[k]) {
      var k :| 0 <= k < |s| && Katakana(s[k]);
      assert KataToHira(s)[k] != s[k];
    }
  }

  /** Each letter of the katakana row up to U+30F6 (ヶ) becomes a hiragana letter. */
  lemma KatakanaRowToHiragana(c: char)
    requires 0x30A1 <= c as int <= 0x30F6
    ensures Hiragana(ToHira(c)) && ToHira(c) as int == c as int - 0x60
  {
  }

  /** The squared katakana words U+3330..U+3357, whose shifted images are
      circled katakana letters and so are shifted again by a second pass. */
  predicate InSquaredKatakana(c: char) {
    0x3330 <= c as int <= 0x3357
  }

  predicate OutsideSquaredKatakana(c: char) {
    !InSquaredKatakana(c)
  }

  lemma ToHiraLeavesNoKatakana(c: char)
    requires !InSquaredKatakana(c)
    ensures !Katakana(ToHira(c))
  {
  }

  /** Normalising a second time changes nothing, except on text holding a
      squared katakana word. */
  lemma {:induction false} KataToHiraIdempotent(s: string)
    requires All(s, OutsideSquaredKatakana)
    ensures KataToHira(KataToHira(s)) == KataToHira(s)
  {
    var r := KataToHira(s);
    forall k | 0 <= k < |r|
      ensures !Katakana(r[k])
    {
      assert OutsideSquaredKatakana(s[k]);
      ToHiraLeavesNoKatakana(s[k]);
    }
    KataToHiraIdentity(r);
  }

  /** A squared katakana word is moved twice by two passes, so normalisation
      is not idempotent on all text. */
  lemma SquaredKatakanaShiftsTwice()
    ensures KataToHira(KataToHira(['\U{3330}'])) == ['\U{3270}']
    ensures KataToHira(['\U{3330}']) == ['\U{32D0}']
  {
    assert KataToHira(['\U{3330}']) == ['\U{32D0}'];
    assert KataToHira(['\U{32D0}']) == ['\U{3270}'];
  }

  /** Half-width katakana are Script=Katakana too, so they are shifted into
      the full-width ASCII forms: half-width ｱ (U+FF71) becomes full-width １,
      and half-width ｨ (U+FF68) becomes the full-width opening parenthesis. */
  lemma HalfWidthKatakanaShifted()
    ensures KataToHira(['\U{FF71}']) == ['\U{FF11}']
    ensures KataToHira(['\U{FF68}']) == [OpenParen]
  {
    assert KataToHira(['\U{FF71}'])[0] == ToHira('\U{FF71}');
    assert KataToHira(['\U{FF68}'])[0] == ToHira('\U{FF68}');
  }

  /** Normalisation works character by character, so it distributes over concatenation. */
  lemma {:induction false} KataToHiraAppend(a: string, b: string)
    ensures KataToHira(a + b) == KataToHira(a) + KataToHira(b)
  {
    var l, r := KataToHira(a + b), KataToHira(a) + KataToHira(b);
    assert |l| == |r|;
    forall k | 0 <= k < |l|
      ensures l[k] == r[k]
    {
      if k < |a| {
        assert (a + b)[k] == a[k];
      } else {
        assert (a + b)[k] == b[k - |a|];
      }
    }
  }

  /** Normalisation neither introduces nor removes whitespace. */
  lemma KataToHiraNoSpace(s: string)
    requires All(s, NotSpace)
    ensures All(KataToHira(s), NotSpace)
  {
    var r := KataToHira(s);
    forall k | 0 <= k < |r|
      ensures NotSpace(r[k])
    {
      assert NotSpace(s[k]);
    }
  }
}
