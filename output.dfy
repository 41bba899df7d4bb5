/** The text form of the dictionary: `formatting`, which ends every line with
    CR LF, and the tab-separated columns of each entry. */
module Output {

  const Crlf: string := "\r\n"

  /** Every line followed by `end`, all concatenated. */
  function Terminated(li: seq<string>, end: string): (r: string)
    ensures |li| > 0 ==> |r| >= |end| && r[|r| - |end|..] == end
  {
    if li == [] then [] else li[0] + end + Terminated(li[1..], end)
  }

  /** `formatting(li)`: every line followed by "\r\n", all concatenated. */
  function Formatting(li: seq<string>): (r: string)
    ensures |li| > 0 ==> |r| >= 2 && r[|r| - 2..] == Crlf
  {
    Terminated(li, Crlf)
  }

  /** What a text file opened with `newline="\r\n"` stores for a written
      text: every line feed becomes CR LF, every other character is kept. */
  function Translate(s: string): (r: string)
    ensures '\n' !in s ==> r == s
  {
    if s == [] then []
    else (if s[0] == '\n' then Crlf else [s[0]]) + Translate(s[1..])
  }

  /** The position of the first `c` in `s`, or `|s|` when there is none. */
  function IndexOf(s: string, c: char): (k: nat)
    ensures k <= |s| && (k < |s| ==> s[k] == c)
    ensures forall j | 0 <= j < k :: s[j] != c
  {
    if s == [] || s[0] == c then 0 else 1 + IndexOf(s[1..], c)
  }

  /** Reading a formatted text back: the text cut at every CR LF. */
  function Unformat(s: string): (r: seq<string>)
    ensures r == [] <==> s == []
    ensures forall k | 0 <= k < |r| - 1 :: '\r' !in r[k]
    decreases |s|
  {
    if s == [] then []
    else
      var k := IndexOf(s, '\r');
      if k + 1 < |s| && s[k + 1] == '\n' then [s[..k]] + Unformat(s[k + 2..]) else [s]
  }

  /** The columns of an entry: the line cut at every tab. */
  function Fields(s: string): (r: seq<string>)
    ensures |r| > 0
    ensures forall k | 0 <= k < |r| :: '\t' !in r[k]
    decreases |s|
  {
    var k := IndexOf(s, '\t');
    if k == |s| then [s] else [s[..k]] + Fields(s[k + 1..])
  }

  /** In `a + rest`, where `rest` starts with `c` and `a` does not hold it,
      the first `c` is at `|a|`. */
  lemma IndexAfter(a: string, rest: string, c: char)
    requires c !in a && |rest| > 0 && rest[0] == c
    ensures IndexOf(a + rest, c) == |a|
  {
    var s := a + rest;
    assert forall j | 0 <= j < |a| :: s[j] == a[j] && a[j] != c;
    assert s[|a|] == c;
  }

  /** Terminating a concatenation of lists is concatenating their terminated
      forms, so the three blocks `make_dic` writes form one formatted list. */
  lemma {:induction false} TerminatedAppend(a: seq<string>, b: seq<string>, end: string)
    ensures Terminated(a + b, end) == Terminated(a, end) + Terminated(b, end)
  {
    if a != [] {
      var ab := a + b;
      assert ab[0] == a[0] && ab[1..] == a[1..] + b;
      assert Terminated(ab, end) == a[0] + end + Terminated(a[1..] + b, end);
      TerminatedAppend(a[1..], b, end);
      assert Terminated(a, end) == a[0] + end + Terminated(a[1..], end);
    } else {
      assert a + b == b;
    }
  }

  /** Lines without a carriage return are read back from their formatting unchanged. */
  lemma {:induction false} FormattingRoundTrip(li: seq<string>)
    requires forall i | 0 <= i < |li| :: '\r' !in li[i]
    ensures Unformat(Formatting(li)) == li
  {
    if li != [] {
      var tail := Formatting(li[1..]);
      assert Formatting(li) == li[0] + (Crlf + tail);
      UnformatLine(li[0], tail);
      FormattingRoundTrip(li[1..]);
      assert li == [li[0]] + li[1..];
    }
  }

  /** A line without CR, followed by CR LF, is read back as that line. */
  lemma UnformatLine(l: string, tail: string)
    requires '\r' !in l
    ensures Unformat(l + (Crlf + tail)) == [l] + Unformat(tail)
  {
    var s := l + (Crlf + tail);
    IndexAfter(l, Crlf + tail, '\r');
    assert s[|l| + 1] == '\n';
    assert s[..|l|] == l;
    assert s[|l| + 2..] == tail;
  }

  /** Translating a concatenation translates each part. */
  lemma {:induction false} TranslateAppend(a: string, b: string)
    ensures Translate(a + b) == Translate(a) + Translate(b)
  {
    if a != [] {
      assert (a + b)[0] == a[0] && (a + b)[1..] == a[1..] + b;
      TranslateAppend(a[1..], b);
    } else {
      assert a + b == b;
    }
  }

  /** Terminated lines without line feeds keep their text through the
      translation; only their terminators are translated. */
  lemma {:induction false} TranslateTerminated(li: seq<string>, end: string)
    requires forall i | 0 <= i < |li| :: '\n' !in li[i]
    ensures Translate(Terminated(li, end)) == Terminated(li, Translate(end))
  {
    if li != [] {
      TranslateAppend(li[0] + end, Terminated(li[1..], end));
      TranslateAppend(li[0], end);
      TranslateTerminated(li[1..], end);
    }
  }

  /** As written: a formatted line stored through the translation ends in
      CR CR LF, since the CR LF of `formatting` gets its line feed translated. */
  lemma StoredFormatting(li: seq<string>)
    requires forall i | 0 <= i < |li| :: '\n' !in li[i]
    ensures Translate(Formatting(li)) == Terminated(li, "\r\r\n")
  {
    TranslateTerminated(li, Crlf);
    assert Translate(Crlf) == "\r\r\n" by {
      assert Crlf[1..] == "\n" && "\n"[1..] == [];
    }
  }

  /** Corrected: lines ended by a line feed are stored exactly as `formatting`
      intends, each ended by CR LF. */
  lemma StoredLineFeeds(li: seq<string>)
    requires forall i | 0 <= i < |li| :: '\n' !in li[i]
    ensures Translate(Terminated(li, "\n")) == Formatting(li)
  {
    TranslateTerminated(li, "\n");
    assert Translate("\n") == Crlf by {
      assert "\n"[1..] == [];
    }
  }

  /** A tab-free column followed by a tab is split off the rest. */
  lemma FieldsSplit(a: string, rest: string)
    requires '\t' !in a
    ensures Fields(a + ("\t" + rest)) == [a] + Fields(rest)
  {
    var s := a + ("\t" + rest);
    IndexAfter(a, "\t" + rest, '\t');
    assert s[..|a|] == a;
    assert s[|a| + 1..] == rest;
  }

  /** A column without a tab is a single field. */
  lemma FieldsNoTab(c: string)
    requires '\t' !in c
    ensures Fields(c) == [c]
  {
    assert IndexOf(c, '\t') == |c|;
  }

  /** An entry written column, tab, column, tab, column, grouped from the right. */
  lemma EntryGrouping(a: string, b: string, c: string)
    ensures a + "\t" + b + "\t" + c == a + ("\t" + (b + ("\t" + c)))
  {
  }

  /** An entry of three tab-free columns splits back into exactly those columns. */
  lemma ThreeFields(a: string, b: string, c: string)
    requires '\t' !in a && '\t' !in b && '\t' !in c
    ensures Fields(a + "\t" + b + "\t" + c) == [a, b, c]
  {
    EntryGrouping(a, b, c);
    FieldsSplit(a, b + ("\t" + c));
    FieldsSplit(b, c);
    FieldsNoTab(c);
  }
}
