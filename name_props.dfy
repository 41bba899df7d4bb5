/** Properties of `FullName`: the backtracking match of `ja_pt` in closed
    form, how the constructor classifies a text, and worked examples. */
module NameProperties {
  import opened Wrappers
  import opened CharClass
  import opened Kana
  import opened Names

  /** A run ends where its characters stop, wherever inside it the scan begins. */
  lemma RunEndUnique(t: string, i: nat, j: nat, p: char -> bool)
    requires i <= j <= |t|
    requires forall k | i <= k < j :: p(t[k])
    requires j == |t| || !p(t[j])
    ensures RunEnd(t, i, p) == j
  {
  }

  /** `ja_pt` matched at `i`, in closed form. With `e` the end of the name
      run starting at `i`:
      - when a whitespace follows and a second name run follows it, `last`
        is the first run and `first` the second;
      - otherwise "（" must follow the run directly, and then `last` is all
        of it but its final character, which alone is `first`. */
  function ClosedMatch(t: string, i: nat): (r: Option<Groups>)
    requires i <= |t|
    ensures r.Some? ==> i < |t| && |r.value.last| > 0 && |r.value.first| > 0 && |r.value.kanaLast| > 0
  {
    var e := RunEnd(t, i, NameChar);
    var f := if e < |t| then RunEnd(t, e + 1, NameChar) else e;
    if e == i then None
    else if e < |t| && Space(t[e]) && f > e + 1 && ParenReading(t, f).Some? then
      Some(Groups(t[i..e], t[e + 1..f], ParenReading(t, f).value.0, ParenReading(t, f).value.1))
    else if e > i + 1 && ParenReading(t, e).Some? then
      Some(Groups(t[i..e - 1], t[e - 1..e], ParenReading(t, e).value.0, ParenReading(t, e).value.1))
    else None
  }

  /** Ending `first` inside a name run fails: "（" cannot follow a name character. */
  lemma {:induction false} FirstInsideRunFails(t: string, s: nat, f: nat)
    requires s <= |t| && s <= f < RunEnd(t, s, NameChar)
    ensures MatchFirst(t, s, f) == None
    decreases f
  {
    OpenParenInNoClass();
    if f > s {
      assert NameChar(t[f]);
      FirstInsideRunFails(t, s, f - 1);
    }
  }

  /** `first` tried from the end of its run succeeds only at that end. */
  lemma FirstAtRunEnd(t: string, s: nat)
    requires s <= |t|
    ensures var f := RunEnd(t, s, NameChar);
            MatchFirst(t, s, f) ==
              if f > s && ParenReading(t, f).Some? then
                Some(Groups([], t[s..f], ParenReading(t, f).value.0, ParenReading(t, f).value.1))
              else None
  {
    var f := RunEnd(t, s, NameChar);
    if f > s && ParenReading(t, f).None? {
      FirstInsideRunFails(t, s, f - 1);
    }
  }

  /** Once `last` has given back characters of its run, `first` is the rest
      of the run, so the match succeeds with the first such split or not at all. */
  lemma {:induction false} LastInsideRun(t: string, i: nat, e: nat)
    requires i <= |t| && i <= e < RunEnd(t, i, NameChar)
    ensures var f := RunEnd(t, i, NameChar);
            MatchLast(t, i, e) ==
              if e > i && ParenReading(t, f).Some? then
                Some(Groups(t[i..e], t[e..f], ParenReading(t, f).value.0, ParenReading(t, f).value.1))
              else None
    decreases e
  {
    var f := RunEnd(t, i, NameChar);
    if e > i {
      NameCharNotSpace(t[e]);
      RunEndUnique(t, e, f, NameChar);
      FirstAtRunEnd(t, e);
      if ParenReading(t, f).None? {
        LastInsideRun(t, i, e - 1);
      }
    }
  }

  /** At the end of a name run, only the whitespace-separated split can follow. */
  lemma AfterRunEnd(t: string, e: nat)
    requires e <= |t| && (e == |t| || !NameChar(t[e]))
    ensures var f := if e < |t| then RunEnd(t, e + 1, NameChar) else e;
            MatchAfterLast(t, e) ==
              if e < |t| && Space(t[e]) && f > e + 1 && ParenReading(t, f).Some? then
                Some(Groups([], t[e + 1..f], ParenReading(t, f).value.0, ParenReading(t, f).value.1))
              else None
  {
    if e < |t| && Space(t[e]) {
      FirstAtRunEnd(t, e + 1);
    }
    RunEndUnique(t, e, e, NameChar);
    assert MatchFirst(t, e, e) == None;
  }

  /** The backtracking match and the closed form agree at every position. */
  lemma MatchAtClosed(t: string, i: nat)
    requires i <= |t|
    ensures MatchAt(t, i) == ClosedMatch(t, i)
  {
    var e := RunEnd(t, i, NameChar);
    assert MatchAt(t, i) == MatchLast(t, i, e);
    if e > i {
      var f := if e < |t| then RunEnd(t, e + 1, NameChar) else e;
      var spaced := e < |t| && Space(t[e]) && f > e + 1 && ParenReading(t, f).Some?;
      AfterRunEnd(t, e);
      if spaced {
        SpacedClosed(t, i, e, f);
      } else {
        UnspacedClosed(t, i, e);
      }
    }
  }

  /** The closed form's first case: the backtracking match keeps the whole run as `last`. */
  lemma SpacedClosed(t: string, i: nat, e: nat, f: nat)
    requires i < e < |t| && e == RunEnd(t, i, NameChar) && f == RunEnd(t, e + 1, NameChar)
    requires Space(t[e]) && f > e + 1 && ParenReading(t, f).Some?
    ensures MatchLast(t, i, e) == ClosedMatch(t, i)
  {
    var rd := ParenReading(t, f).value;
    SpacedMatchLast(t, i, e, f);
    SpacedClosedValue(t, i, e, f);
  }

  lemma SpacedMatchLast(t: string, i: nat, e: nat, f: nat)
    requires i < e < |t| && e == RunEnd(t, i, NameChar) && f == RunEnd(t, e + 1, NameChar)
    requires Space(t[e]) && f > e + 1 && ParenReading(t, f).Some?
    ensures MatchLast(t, i, e) == Some(Groups(t[i..e], t[e + 1..f], ParenReading(t, f).value.0, ParenReading(t, f).value.1))
  {
    AfterRunEnd(t, e);
    var rd := ParenReading(t, f).value;
    assert MatchAfterLast(t, e) == Some(Groups([], t[e + 1..f], rd.0, rd.1));
  }

  lemma SpacedClosedValue(t: string, i: nat, e: nat, f: nat)
    requires i < e < |t| && e == RunEnd(t, i, NameChar) && f == RunEnd(t, e + 1, NameChar)
    requires Space(t[e]) && f > e + 1 && ParenReading(t, f).Some?
    ensures ClosedMatch(t, i) == Some(Groups(t[i..e], t[e + 1..f], ParenReading(t, f).value.0, ParenReading(t, f).value.1))
  {
  }

  /** The closed form's second case: without the whitespace split, `last`
      gives back exactly one character. */
  lemma UnspacedClosed(t: string, i: nat, e: nat)
    requires i < e <= |t| && e == RunEnd(t, i, NameChar)
    requires var f := if e < |t| then RunEnd(t, e + 1, NameChar) else e;
             !(e < |t| && Space(t[e]) && f > e + 1 && ParenReading(t, f).Some?)
    ensures MatchLast(t, i, e) == ClosedMatch(t, i)
  {
    UnspacedMatchLast(t, i, e);
    UnspacedClosedValue(t, i, e);
  }

  lemma UnspacedMatchLast(t: string, i: nat, e: nat)
    requires i < e <= |t| && e == RunEnd(t, i, NameChar)
    requires var f := if e < |t| then RunEnd(t, e + 1, NameChar) else e;
             !(e < |t| && Space(t[e]) && f > e + 1 && ParenReading(t, f).Some?)
    ensures MatchLast(t, i, e) ==
              if e > i + 1 && ParenReading(t, e).Some? then
                Some(Groups(t[i..e - 1], t[e - 1..e], ParenReading(t, e).value.0, ParenReading(t, e).value.1))
              else None
  {
    AfterRunEnd(t, e);
    LastGivesBack(t, i, e);
    LastInsideRun(t, i, e - 1);
  }

  /** When nothing matches after `last` ending at `e`, `last` gives back a character. */
  lemma LastGivesBack(t: string, i: nat, e: nat)
    requires i < e <= |t| && e == RunEnd(t, i, NameChar) && MatchAfterLast(t, e) == None
    ensures MatchLast(t, i, e) == MatchLast(t, i, e - 1)
  {
  }

  lemma UnspacedClosedValue(t: string, i: nat, e: nat)
    requires i < e <= |t| && e == RunEnd(t, i, NameChar)
    requires var f := if e < |t| then RunEnd(t, e + 1, NameChar) else e;
             !(e < |t| && Space(t[e]) && f > e + 1 && ParenReading(t, f).Some?)
    ensures ClosedMatch(t, i) ==
              if e > i + 1 && ParenReading(t, e).Some? then
                Some(Groups(t[i..e - 1], t[e - 1..e], ParenReading(t, e).value.0, ParenReading(t, e).value.1))
              else None
  {
  }

  /** A match needs "（" somewhere in the text. */
  lemma MatchNeedsParen(t: string, i: nat)
    requires i <= |t|
    requires MatchAt(t, i).Some?
    ensures exists k | 0 <= k < |t| :: t[k] == OpenParen
  {
    MatchAtClosed(t, i);
  }

  /** A match at `i` inside a name run implies one at `i - 1`; so the leftmost
      match, which `search` returns, starts where a name run starts. */
  lemma MatchExtendsLeft(t: string, i: nat)
    requires 0 < i <= |t| && NameChar(t[i - 1])
    requires MatchAt(t, i).Some?
    ensures MatchAt(t, i - 1).Some?
  {
    MatchAtClosed(t, i);
    ClosedExtendsLeft(t, i);
    MatchAtClosed(t, i - 1);
  }

  /** The same for the closed form: both positions share the end of the run. */
  lemma ClosedExtendsLeft(t: string, i: nat)
    requires 0 < i <= |t| && NameChar(t[i - 1])
    requires ClosedMatch(t, i).Some?
    ensures ClosedMatch(t, i - 1).Some?
  {
    var e := RunEnd(t, i, NameChar);
    RunEndUnique(t, i - 1, e, NameChar);
  }

  lemma SearchStartsAtRun(t: string)
    requires Search(t).Some?
    ensures exists i | 0 <= i <= |t| :: Search(t) == MatchAt(t, i) && (i == 0 || !NameChar(t[i - 1]))
  {
    var i :| 0 <= i <= |t| && Search(t) == MatchAt(t, i) && forall k | 0 <= k < i :: MatchAt(t, k).None?;
    if i > 0 && NameChar(t[i - 1]) {
      MatchExtendsLeft(t, i);
      assert false;
    }
  }
}

module NameClassification {
  import opened Wrappers
  import opened CharClass
  import opened Kana
  import opened Names
  import opened NameProperties

  /** A text without "（" has no match of `ja_pt`. */
  lemma NoParenNoSearch(t: string)
    requires forall k | 0 <= k < |t| :: t[k] != OpenParen
    ensures Search(t).None?
  {
    if Search(t).Some? {
      var j :| 0 <= j <= |t| && MatchAt(t, j).Some?;
      MatchNeedsParen(t, j);
      assert false;
    }
  }

  /** The Japanese pattern is consulted first: the record is a Japanese one
      exactly when `ja_pt` matches somewhere in the text. */
  lemma JapaneseFirst(t: string)
    ensures (exists i | 0 <= i <= |t| :: MatchAt(t, i).Some?) <==> InitName(t).Ok? && !InitName(t).value.isFgn
  {
  }

  /** The record is a foreign one exactly when the whole text (up to a final
      newline) is made of Script_extensions=Katakana characters. */
  lemma {:induction false} ForeignIff(t: string)
    ensures InitName(t).Ok? && InitName(t).value.isFgn <==> AnchoredRun(t, KatakanaExt).Some?
  {
    var a := AnchoredRun(t, KatakanaExt);
    if a.Some? {
      OpenParenInNoClass();
      forall k | 0 <= k < |t|
        ensures t[k] != OpenParen
      {
        if k < |a.value| {
          assert t[k] == a.value[k];
        }
      }
      NoParenNoSearch(t);
    }
  }

  /** `NameError` exactly when neither pattern matches. */
  lemma NotANameIff(t: string)
    ensures InitName(t).Err? <==>
              (forall i | 0 <= i <= |t| :: MatchAt(t, i).None?) && AnchoredRun(t, KatakanaExt).None?
  {
    ForeignIff(t);
    JapaneseFirst(t);
  }

  /** A foreign record is the whole text (a final newline aside) as surname,
      with an empty given name and its own normalised reading. */
  lemma ForeignRecord(t: string, n: FullName)
    requires InitName(t) == Ok(n) && n.isFgn
    ensures t == n.last || t == n.last + ['\n']
    ensures |n.last| > 0 && All(n.last, KatakanaExt)
    ensures n.first == [] && n.kanaFirst == [] && n.kanaLast == KataToHira(n.last)
  {
  }

  /** A Japanese record holds the groups of the leftmost match, which starts
      where a run of name characters starts; its readings are normalised. */
  lemma JapaneseRecord(t: string, n: FullName)
    requires InitName(t) == Ok(n) && !n.isFgn
    ensures exists i | 0 <= i <= |t| ::
              && MatchAt(t, i).Some?
              && (i == 0 || !NameChar(t[i - 1]))
              && (forall k | 0 <= k < i :: MatchAt(t, k).None?)
              && MatchAt(t, i).value.last == n.last
              && MatchAt(t, i).value.first == n.first
              && KataToHira(MatchAt(t, i).value.kanaLast) == n.kanaLast
              && KataToHira(MatchAt(t, i).value.kanaFirst) == n.kanaFirst
  {
    JapaneseGroups(t, n);
    var i :| 0 <= i <= |t| && Search(t) == MatchAt(t, i) && forall k | 0 <= k < i :: MatchAt(t, k).None?;
    if i > 0 && NameChar(t[i - 1]) {
      MatchExtendsLeft(t, i);
      assert false;
    }
  }

  /** A Japanese record holds the groups `search` found, readings normalised. */
  lemma JapaneseGroups(t: string, n: FullName)
    requires InitName(t) == Ok(n) && !n.isFgn
    ensures Search(t).Some?
    ensures var g := Search(t).value;
            n == FullName(g.last, g.first, KataToHira(g.kanaLast), KataToHira(g.kanaFirst), false)
  {
  }

  /** A run of class `p` written at `i` and followed by a character outside
      `p` (or by the end of the text) is exactly what `RunEnd` measures. */
  lemma RunEndOfPiece(t: string, i: nat, s: string, p: char -> bool)
    requires i + |s| <= |t| && t[i..i + |s|] == s && All(s, p)
    requires i + |s| == |t| || !p(t[i + |s|])
    ensures RunEnd(t, i, p) == i + |s|
  {
    forall k | i <= k < i + |s|
      ensures p(t[k])
    {
      assert t[k] == s[k - i];
    }
    RunEndUnique(t, i, i + |s|, p);
  }

  /** A piece of a concatenation, found at its offset. */
  lemma PieceAt(a: string, b: string, c: string)
    ensures (a + b + c)[|a|..|a| + |b|] == b
  {
  }

  /** For a record built from a text, `all_kana_pt` matches a name part
      exactly when the part is non-empty and made only of Hiragana and
      Script=Katakana characters (no part ends in a newline). */
  lemma AllKanaIff(n: FullName)
    requires n.Valid()
    ensures n.IsAllKanaLast() <==> All(n.last, KanaChar)
    ensures n.IsAllKanaFirst() <==> |n.first| > 0 && All(n.first, KanaChar)
  {
    if |n.last| > 1 {
      assert NotSpace(n.last[|n.last| - 1]);
    }
    if |n.first| > 1 {
      assert NotSpace(n.first[|n.first| - 1]);
    }
  }

  /** The prolonged sound mark ー (U+30FC) is a name character but not a kana
      character for `all_kana_pt`, so a name part holding it is never all kana. */
  lemma ProlongedSoundMark()
    ensures NameChar('\U{30FC}') && ReadingChar('\U{30FC}') && !KanaChar('\U{30FC}')
    ensures AnchoredRun("ルー", KanaChar).None?
  {
    assert !KanaChar("ルー"[1]);
  }

  /** The reading after "（": `kana_last`, one whitespace, `kana_first`, then
      anything that does not continue a reading. */
  lemma ReadingAt(pre: string, kl: string, sep: char, kf: string, rest: string)
    requires |kl| > 0 && All(kl, ReadingChar) && All(kf, ReadingChar) && Space(sep)
    requires rest == [] || !ReadingChar(rest[0])
    ensures ParenReading(pre + [OpenParen] + kl + [sep] + kf + rest, |pre|) == Some((kl, kf))
  {
    var t := pre + [OpenParen] + kl + [sep] + kf + rest;
    var f := |pre|;
    var g := f + 1 + |kl|;
    var h := g + 1 + |kf|;
    PieceAt(pre + [OpenParen], kl, [sep] + kf + rest);
    assert t[g] == sep;
    ReadingCharNotSpace(sep);
    RunEndOfPiece(t, f + 1, kl, ReadingChar);
    PieceAt(pre + [OpenParen] + kl + [sep], kf, rest);
    assert h == |t| || t[h] == rest[0];
    RunEndOfPiece(t, g + 1, kf, ReadingChar);
    ParenReadingSpaced(t, f, g, h);
  }

  /** The two reading runs of a reading whose parts are separated by a whitespace. */
  lemma ParenReadingSpaced(t: string, f: nat, g: nat, h: nat)
    requires f < g < |t| && t[f] == OpenParen && g > f + 1
    requires RunEnd(t, f + 1, ReadingChar) == g && Space(t[g]) && RunEnd(t, g + 1, ReadingChar) == h
    ensures ParenReading(t, f) == Some((t[f + 1..g], t[g + 1..h]))
  {
  }

  /** Without a whitespace after the first reading run, `kana_first` takes
      the reading run that follows it directly, which is empty. */
  lemma ParenReadingUnspaced(t: string, f: nat)
    requires f + 1 < |t| && t[f] == OpenParen && ReadingChar(t[f + 1])
    requires var g := RunEnd(t, f + 1, ReadingChar); g == |t| || !Space(t[g])
    ensures ParenReading(t, f) == Some((t[f + 1..RunEnd(t, f + 1, ReadingChar)], []))
  {
    var g := RunEnd(t, f + 1, ReadingChar);
    RunEndUnique(t, g, g, ReadingChar);
  }

  /** A match at the start of the text is what the constructor records. */
  lemma InitNameOfMatch(t: string, g: Groups)
    requires MatchAt(t, 0) == Some(g)
    ensures InitName(t) == Ok(FullName(g.last, g.first, KataToHira(g.kanaLast), KataToHira(g.kanaFirst), false))
  {
    assert Search(t) == Some(g);
  }

  /** The closed form when a whitespace separates two name runs. */
  lemma ClosedSpaced(t: string, e: nat, f: nat, rd: (string, string))
    requires 0 < e < f <= |t| && RunEnd(t, 0, NameChar) == e && Space(t[e])
    requires RunEnd(t, e + 1, NameChar) == f && f > e + 1 && ParenReading(t, f) == Some(rd)
    ensures MatchAt(t, 0) == Some(Groups(t[..e], t[e + 1..f], rd.0, rd.1))
  {
    MatchAtClosed(t, 0);
  }

  /** Rebuilding the surface form with a whitespace between the names gives
      back the record: `last` and `first` are the two runs as written. */
  lemma ParseSpaced(last: string, sep: char, first: string, kl: string, sep2: char, kf: string, rest: string)
    requires |last| > 0 && All(last, NameChar) && |first| > 0 && All(first, NameChar)
    requires |kl| > 0 && All(kl, ReadingChar) && All(kf, ReadingChar)
    requires Space(sep) && Space(sep2)
    requires rest == [] || !ReadingChar(rest[0])
    ensures InitName(last + [sep] + first + [OpenParen] + kl + [sep2] + kf + rest)
            == Ok(FullName(last, first, KataToHira(kl), KataToHira(kf), false))
  {
    var pre := last + [sep] + first;
    var t := pre + [OpenParen] + kl + [sep2] + kf + rest;
    assert |pre| == |last| + 1 + |first|;
    SpacedRuns(last, sep, first, kl, sep2, kf, rest);
    ReadingAt(pre, kl, sep2, kf, rest);
    InitNameSpaced(t, last, first, |pre|, (kl, kf));
  }

  /** The record built from a text whose names are separated by a whitespace. */
  lemma InitNameSpaced(t: string, last: string, first: string, f: nat, rd: (string, string))
    requires 0 < |last| && 0 < |first| && f == |last| + 1 + |first| <= |t|
    requires t[..|last|] == last && t[|last| + 1..f] == first
    requires RunEnd(t, 0, NameChar) == |last| && Space(t[|last|]) && RunEnd(t, |last| + 1, NameChar) == f
    requires ParenReading(t, f) == Some(rd)
    ensures InitName(t) == Ok(FullName(last, first, KataToHira(rd.0), KataToHira(rd.1), false))
  {
    ClosedSpaced(t, |last|, f, rd);
    InitNameOfMatch(t, Groups(last, first, rd.0, rd.1));
  }

  /** The two name runs of a name written with a whitespace, up to "（". */
  lemma SpacedRuns(last: string, sep: char, first: string, kl: string, sep2: char, kf: string, rest: string)
    requires |last| > 0 && All(last, NameChar) && |first| > 0 && All(first, NameChar) && Space(sep)
    ensures var t := last + [sep] + first + [OpenParen] + kl + [sep2] + kf + rest;
            var e := |last|;
            var f := e + 1 + |first|;
            RunEnd(t, 0, NameChar) == e && Space(t[e]) && RunEnd(t, e + 1, NameChar) == f
            && t[..e] == last && t[e + 1..f] == first
  {
    var t := last + [sep] + first + [OpenParen] + kl + [sep2] + kf + rest;
    var e := |last|;
    var f := e + 1 + |first|;
    PieceAt([], last, [sep] + first + [OpenParen] + kl + [sep2] + kf + rest);
    assert t[..e] == last;
    assert t[e] == sep;
    NameCharNotSpace(sep);
    RunEndOfPiece(t, 0, last, NameChar);
    PieceAt(last + [sep], first, [OpenParen] + kl + [sep2] + kf + rest);
    assert t[e + 1..f] == first;
    assert t[f] == OpenParen;
    OpenParenInNoClass();
    RunEndOfPiece(t, e + 1, first, NameChar);
  }

  /** Without a whitespace between the names, the greedy `last` gives back
      only one character: `first` is the final character of the name. */
  lemma ParseUnspaced(name: string, kl: string, sep2: char, kf: string, rest: string)
    requires |name| >= 2 && All(name, NameChar)
    requires |kl| > 0 && All(kl, ReadingChar) && All(kf, ReadingChar)
    requires Space(sep2)
    requires rest == [] || !ReadingChar(rest[0])
    ensures InitName(name + [OpenParen] + kl + [sep2] + kf + rest)
            == Ok(FullName(name[..|name| - 1], name[|name| - 1..], KataToHira(kl), KataToHira(kf), false))
  {
    var t := name + [OpenParen] + kl + [sep2] + kf + rest;
    var e := |name|;
    assert t[0..e] == name && t[e] == OpenParen;
    OpenParenInNoClass();
    RunEndOfPiece(t, 0, name, NameChar);
    ReadingAt(name, kl, sep2, kf, rest);
    InitNameUnspaced(t, name, (kl, kf));
  }

  /** The record built from a text whose name run is followed directly by "（". */
  lemma InitNameUnspaced(t: string, name: string, rd: (string, string))
    requires 2 <= |name| < |t| && t[..|name|] == name && t[|name|] == OpenParen
    requires RunEnd(t, 0, NameChar) == |name| && ParenReading(t, |name|) == Some(rd)
    ensures InitName(t) == Ok(FullName(name[..|name| - 1], name[|name| - 1..], KataToHira(rd.0), KataToHira(rd.1), false))
  {
    var e := |name|;
    OpenParenInNoClass();
    MatchAtClosed(t, 0);
    assert t[0..e - 1] == name[..e - 1] && t[e - 1..e] == name[e - 1..];
    InitNameOfMatch(t, Groups(name[..e - 1], name[e - 1..], rd.0, rd.1));
  }
}

/** Worked examples of `FullName(text)`. */
module NameExamples {
  import opened Wrappers
  import opened CharClass
  import opened Kana
  import opened Names
  import opened NameClassification

  lemma SeparatedText()
    ensures "天海 春香（あまみ はるか）" == "天海" + [' '] + "春香" + [OpenParen] + "あまみ" + [' '] + "はるか" + "）"
  {
  }

  lemma AmamiHarukaPieces()
    ensures All("天海", NameChar) && All("春香", NameChar) && All("天海春香", NameChar)
    ensures All("あまみ", ReadingChar) && All("はるか", ReadingChar)
    ensures Space(' ') && Space('\U{3000}') && !ReadingChar('）')
  {
  }

  /** Names written with a space: the surname and the given name as written. */
  lemma SeparatedNameExample()
    ensures InitName("天海 春香（あまみ はるか）") == Ok(FullName("天海", "春香", "あまみ", "はるか", false))
  {
    SeparatedText();
    AmamiHarukaPieces();
    ParseSpaced("天海", ' ', "春香", "あまみ", ' ', "はるか", "）");
    KataToHiraIdentity("あまみ");
    KataToHiraIdentity("はるか");
  }

  lemma UnseparatedText()
    ensures "天海春香（あまみ　はるか）" == "天海春香" + [OpenParen] + "あまみ" + ['\U{3000}'] + "はるか" + "）"
    ensures "天海春香"[..3] == "天海春" && "天海春香"[3..] == "香"
  {
  }

  /** Names written without a space: the given name is only the final character. */
  lemma UnseparatedNameExample()
    ensures InitName("天海春香（あまみ　はるか）") == Ok(FullName("天海春", "香", "あまみ", "はるか", false))
  {
    UnseparatedText();
    AmamiHarukaPieces();
    ParseUnspaced("天海春香", "あまみ", '\U{3000}', "はるか", "）");
    KataToHiraIdentity("あまみ");
    KataToHiraIdentity("はるか");
  }

  lemma KatakanaReadingText()
    ensures "双海 亜美（フタミ アミ）" == "双海" + [' '] + "亜美" + [OpenParen] + "フタミ" + [' '] + "アミ" + "）"
    ensures KataToHira("フタミ") == "ふたみ" && KataToHira("アミ") == "あみ"
  {
  }

  lemma FutamiAmiPieces()
    ensures All("双海", NameChar) && All("亜美", NameChar)
    ensures All("フタミ", ReadingChar) && All("アミ", ReadingChar)
  {
  }

  /** A reading written in katakana is stored in hiragana. */
  lemma KatakanaReadingExample()
    ensures InitName("双海 亜美（フタミ アミ）") == Ok(FullName("双海", "亜美", "ふたみ", "あみ", false))
  {
    KatakanaReadingText();
    FutamiAmiPieces();
    ParseSpaced("双海", ' ', "亜美", "フタミ", ' ', "アミ", "）");
  }

  /** An all-katakana text is a foreign name read as itself. */
  lemma ForeignNameExample()
    ensures InitName("ロゼ") == Ok(FullName("ロゼ", "", "ろぜ", "", true))
  {
    NoParenNoSearch("ロゼ");
    assert KataToHira("ロゼ") == "ろぜ";
  }

  /** A hiragana text without a reading matches neither pattern. */
  lemma NotANameExample()
    ensures InitName("あいうえお") == Err(NameError)
  {
    NoParenNoSearch("あいうえお");
    assert !KatakanaExt("あいうえお"[0]);
  }
}
