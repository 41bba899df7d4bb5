/** The class `FullName`: the two name patterns, the record they produce and
    its helper methods. The pattern `ja_pt` is modelled as the backtracking
    search a regular-expression engine performs, and then proved equal to a
    closed form (`ClosedMatch`). */
module Names {
  import opened Wrappers
  import opened CharClass
  import opened Kana

  /** The exception `FullName(text)` raises when the text is not a name. */
  datatype NameError = NameError

  /** A `FullName` object. Its five fields are assigned once, by the
      constructor, and never changed afterwards. */
  datatype FullName = FullName(last: string, first: string, kanaLast: string, kanaFirst: string, isFgn: bool)
  {
    /** `get_name`: the written name, surname first. */
    function GetName(): (r: string)
      ensures |r| == |last| + |first|
      ensures r[..|last|] == last && r[|last|..] == first
    {
      last + first
    }

    /** `get_kana`: the reading of the whole name, surname reading first. */
    function GetKana(): (r: string)
      ensures |r| == |kanaLast| + |kanaFirst|
      ensures r[..|kanaLast|] == kanaLast && r[|kanaLast|..] == kanaFirst
    {
      kanaLast + kanaFirst
    }

    /** `is_all_kana_last`: `all_kana_pt` matches the surname, which is then
        kana throughout, but for one final newline. */
    predicate IsAllKanaLast(): (b: bool)
      ensures b <==> (|last| > 0 && All(last, KanaChar))
                     || (|last| > 1 && last[|last| - 1] == '\n' && All(last[..|last| - 1], KanaChar))
    {
      AnchoredRun(last, KanaChar).Some?
    }

    /** `is_all_kana_first`: `all_kana_pt` matches the given name, which is
        then kana throughout, but for one final newline. */
    predicate IsAllKanaFirst(): (b: bool)
      ensures b <==> (|first| > 0 && All(first, KanaChar))
                     || (|first| > 1 && first[|first| - 1] == '\n' && All(first[..|first| - 1], KanaChar))
    {
      AnchoredRun(first, KanaChar).Some?
    }

    /** What holds of every record the constructor builds from a text. */
    predicate Valid() {
      && All(last, NotSpace) && All(first, NotSpace)
      && All(kanaLast, NotSpace) && All(kanaFirst, NotSpace)
      && All(kanaLast, OutsideKatakanaRow) && All(kanaFirst, OutsideKatakanaRow)
      && |last| > 0
      && if isFgn then
           && All(last, KatakanaExt)
           && first == [] && kanaFirst == []
           && kanaLast == KataToHira(last)
         else
           && |first| > 0 && |kanaLast| > 0
           && All(last, NameChar) && All(first, NameChar)
    }
  }

  /** A pattern `^(p)+$` matched against `s`, giving the text of its group.
      As in the regular-expression engine, `$` also matches just before a
      newline that ends the text. */
  function AnchoredRun(s: string, p: char -> bool): (r: Option<string>)
    ensures r.Some? ==> |r.value| > 0 && All(r.value, p) && (s == r.value || s == r.value + ['\n'])
    ensures |s| > 0 && All(s, p) ==> r == Some(s)
    ensures |s| > 1 && s[|s| - 1] == '\n' && All(s[..|s| - 1], p) ==> r.Some?
  {
    if |s| > 0 && All(s, p) then Some(s)
    else if |s| > 1 && s[|s| - 1] == '\n' && All(s[..|s| - 1], p) then Some(s[..|s| - 1])
    else None
  }

  /** End of the longest run of characters of class `p` that starts at `i`:
      how far a greedy `(p)+` or `(p)*` reaches before any backtracking. */
  function RunEnd(t: string, i: nat, p: char -> bool): (e: nat)
    requires i <= |t|
    ensures i <= e <= |t|
    ensures forall k {:trigger p(t[k])} | i <= k < e :: p(t[k])
    ensures e == |t| || !p(t[e])
    decreases |t| - i
  {
    if i < |t| && p(t[i]) then RunEnd(t, i + 1, p) else i
  }

  /** The four named groups of a match of `ja_pt`, before normalisation. */
  datatype Groups = Groups(last: string, first: string, kanaLast: string, kanaFirst: string)

  /** The groups of a match of `ja_pt` have the classes the pattern gives them. */
  predicate Shaped(g: Groups) {
    |g.last| > 0 && All(g.last, NameChar) && TailShaped(g)
  }

  /** The same, for all groups but `last`. */
  predicate TailShaped(g: Groups) {
    && |g.first| > 0 && All(g.first, NameChar)
    && |g.kanaLast| > 0 && All(g.kanaLast, ReadingChar)
    && All(g.kanaFirst, ReadingChar)
  }

  /** The end of `ja_pt` from position `f`: "（", then `kana_last` (greedy),
      an optional whitespace (tried as one character first) and `kana_first`.
      The last two items match anywhere, so `kana_last` never backtracks. */
  function ParenReading(t: string, f: nat): (r: Option<(string, string)>)
    requires f <= |t|
    ensures r.Some? <==> f + 1 < |t| && t[f] == OpenParen && ReadingChar(t[f + 1])
    ensures r.Some? ==> |r.value.0| > 0 && All(r.value.0, ReadingChar) && All(r.value.1, ReadingChar)
  {
    if f < |t| && t[f] == OpenParen then
      var g := RunEnd(t, f + 1, ReadingChar);
      if g == f + 1 then None
      else if g < |t| && Space(t[g]) then Some((t[f + 1..g], t[g + 1..RunEnd(t, g + 1, ReadingChar)]))
      else Some((t[f + 1..g], t[g..RunEnd(t, g, ReadingChar)]))
    else None
  }

  /** The group `first` starting at `s` and ending at `f` or earlier, followed
      by the rest of the pattern: the greedy run is tried at its longest and
      shortened one character at a time. The result leaves `last` empty. */
  function MatchFirst(t: string, s: nat, f: nat): (r: Option<Groups>)
    requires s <= f <= |t|
    requires forall k | s <= k < f :: NameChar(t[k])
    ensures r.Some? ==> TailShaped(r.value)
    decreases f
  {
    if f == s then None
    else if ParenReading(t, f).Some? then
      var rd := ParenReading(t, f).value;
      Some(Groups([], t[s..f], rd.0, rd.1))
    else MatchFirst(t, s, f - 1)
  }

  /** What follows a `last` group that ends at `e`: the optional whitespace,
      tried as one character and then as none, then `first` at its longest. */
  function MatchAfterLast(t: string, e: nat): (r: Option<Groups>)
    requires e <= |t|
    ensures r.Some? ==> TailShaped(r.value)
  {
    var one := if e < |t| && Space(t[e]) then MatchFirst(t, e + 1, RunEnd(t, e + 1, NameChar)) else None;
    if one.Some? then one else MatchFirst(t, e, RunEnd(t, e, NameChar))
  }

  /** `ja_pt` matched at `i` with the group `last` ending at `e` or earlier:
      the greedy run is tried at its longest and shortened one character at a time. */
  function MatchLast(t: string, i: nat, e: nat): (r: Option<Groups>)
    requires i <= e <= |t|
    requires forall k | i <= k < e :: NameChar(t[k])
    ensures r.Some? ==> Shaped(r.value)
    decreases e
  {
    if e == i then None
    else
      var m := MatchAfterLast(t, e);
      if m.Some? then Some(m.value.(last := t[i..e])) else MatchLast(t, i, e - 1)
  }

  /** `ja_pt` matched starting exactly at position `i`. */
  function MatchAt(t: string, i: nat): (r: Option<Groups>)
    requires i <= |t|
    ensures r.Some? ==> Shaped(r.value)
  {
    MatchLast(t, i, RunEnd(t, i, NameChar))
  }

  /** `ja_pt.search(t)`, trying the start positions from `i` on: the match at
      the leftmost position that has one. */
  function SearchFrom(t: string, i: nat): (r: Option<Groups>)
    requires i <= |t|
    ensures r.Some? ==> Shaped(r.value)
    ensures r.Some? <==> exists j | i <= j <= |t| :: MatchAt(t, j).Some?
    ensures r.Some? ==> exists j | i <= j <= |t| :: r == MatchAt(t, j) && forall k | i <= k < j :: MatchAt(t, k).None?
    decreases |t| - i
  {
    var m := MatchAt(t, i);
    if m.Some? || i == |t| then m
    else
      var r := SearchFrom(t, i + 1);
      assert forall k | i <= k < i + 1 :: MatchAt(t, k).None?;
      r
  }

  function Search(t: string): (r: Option<Groups>)
    ensures r.Some? ==> Shaped(r.value)
  {
    SearchFrom(t, 0)
  }

  lemma AllNameNotSpace(s: string)
    requires All(s, NameChar) || All(s, KatakanaExt)
    ensures All(s, NotSpace)
  {
    forall k | 0 <= k < |s|
      ensures NotSpace(s[k])
    {
      NameCharNotSpace(s[k]);
    }
  }

  lemma AllReadingNotSpace(s: string)
    requires All(s, ReadingChar)
    ensures All(s, NotSpace)
  {
    forall k | 0 <= k < |s|
      ensures NotSpace(s[k])
    {
      ReadingCharNotSpace(s[k]);
    }
  }

  /** `FullName(text)`: `ja_pt` searched anywhere in the text first, then
      `fgn_pt` matched against the whole text; `NameError` when neither matches. */
  function InitName(t: string): (r: Result<FullName, NameError>)
    ensures r.Ok? ==> |r.value.last| > 0
    ensures r.Ok? && !r.value.isFgn ==> |r.value.first| > 0 && |r.value.kanaLast| > 0
  {
    match Search(t)
    case Some(g) =>
      Ok(FullName(g.last, g.first, KataToHira(g.kanaLast), KataToHira(g.kanaFirst), false))
    case None =>
      match AnchoredRun(t, KatakanaExt)
      case Some(l) => Ok(FullName(l, [], KataToHira(l), [], true))
      case None => Err(NameError)
  }

  /** Every record the constructor builds keeps the invariants of `FullName`. */
  lemma InitNameValid(t: string)
    ensures InitName(t).Ok? ==> InitName(t).value.Valid()
  {
    match Search(t)
    case Some(g) =>
      AllNameNotSpace(g.last);
      AllNameNotSpace(g.first);
      AllReadingNotSpace(g.kanaLast);
      AllReadingNotSpace(g.kanaFirst);
      KataToHiraNoSpace(g.kanaLast);
      KataToHiraNoSpace(g.kanaFirst);
    case None =>
      match AnchoredRun(t, KatakanaExt)
      case Some(l) =>
        AllNameNotSpace(l);
        KataToHiraNoSpace(l);
      case None =>
  }
}
