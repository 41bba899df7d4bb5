/** The entry builder of `make_dic`: every candidate text is turned into a
    `FullName`, the records give full-name, surname and given-name entries,
    and each list is deduplicated. The candidate texts (the text of the
    selected HTML tags) are the input. */
module Dictionary {
  import opened Wrappers
  import opened CharClass
  import opened Kana
  import opened Names
  import opened NameClassification
  import opened Dedup
  import opened Output

  /** The full-name entry: reading, written name, and the category 人名. */
  function FullLine(n: FullName): string {
    n.GetKana() + "\t" + n.GetName() + "\t" + "人名"
  }

  /** The surname entry: reading, written surname, and the category 姓. */
  function SurnameLine(n: FullName): string {
    n.kanaLast + "\t" + n.last + "\t" + "姓"
  }

  /** The given-name entry: reading, written given name, and the category 名. */
  function GivenLine(n: FullName): string {
    n.kanaFirst + "\t" + n.first + "\t" + "名"
  }

  /** A record of a Japanese name gets a surname entry when its surname is not
      made only of Hiragana and Script=Katakana characters. */
  predicate HasSurnameLine(n: FullName) {
    !n.isFgn && !n.IsAllKanaLast()
  }

  /** A record of a Japanese name gets a given-name entry when its given name is
      not made only of Hiragana and Script=Katakana characters. */
  predicate HasGivenLine(n: FullName) {
    !n.isFgn && !n.IsAllKanaFirst()
  }

  /** The three lists `full_list`, `last_list` and `first_list`. */
  datatype Lists = Lists(full: seq<string>, last: seq<string>, first: seq<string>)

  function Concat(a: Lists, b: Lists): Lists {
    Lists(a.full + b.full, a.last + b.last, a.first + b.first)
  }

  /** What one pass of the loop appends for a candidate text, given what the
      constructor made of it. */
  function EntryOf(r: Result<FullName, NameError>): (e: Lists)
    ensures e.full == if r.Ok? then [FullLine(r.value)] else []
    ensures e.last == if r.Ok? && HasSurnameLine(r.value) then [SurnameLine(r.value)] else []
    ensures e.first == if r.Ok? && HasGivenLine(r.value) then [GivenLine(r.value)] else []
  {
    match r
    case Err(_) => Lists([], [], [])
    case Ok(n) =>
      if n.isFgn then Lists([FullLine(n)], [], [])
      else Lists([FullLine(n)],
                 if n.IsAllKanaLast() then [] else [SurnameLine(n)],
                 if n.IsAllKanaFirst() then [] else [GivenLine(n)])
  }

  /** `f` applied to each element of `s`, in order. */
  function Map<A, B>(f: A -> B, s: seq<A>): (r: seq<B>)
    ensures |r| == |s|
    decreases |s|
  {
    if s == [] then [] else Map(f, s[..|s| - 1]) + [f(s[|s| - 1])]
  }

  lemma {:induction false} MapAt<A, B>(f: A -> B, s: seq<A>, k: nat)
    requires k < |s|
    ensures Map(f, s)[k] == f(s[k])
    decreases |s|
  {
    if k < |s| - 1 {
      MapAt(f, s[..|s| - 1], k);
    }
  }

  /** What the constructor makes of each text, in order. */
  function Outcomes(texts: seq<string>): (rs: seq<Result<FullName, NameError>>)
    ensures |rs| == |texts|
    ensures forall k | 0 <= k < |rs| :: rs[k].Ok? ==> rs[k].value.Valid()
  {
    OutcomesValid(texts);
    Map(InitName, texts)
  }

  lemma OutcomesValid(texts: seq<string>)
    ensures forall k | 0 <= k < |texts| :: Map(InitName, texts)[k].Ok? ==> Map(InitName, texts)[k].value.Valid()
  {
    forall k | 0 <= k < |texts|
      ensures Map(InitName, texts)[k].Ok? ==> Map(InitName, texts)[k].value.Valid()
    {
      MapAt(InitName, texts, k);
      InitNameValid(texts[k]);
    }
  }

  /** The outcome for each text is the constructor applied to it. */
  lemma OutcomeAt(texts: seq<string>, k: nat)
    requires k < |texts|
    ensures Outcomes(texts)[k] == InitName(texts[k])
  {
    MapAt(InitName, texts, k);
  }

  /** The three lists after the loop, before deduplication, for the outcomes `rs`. */
  function Collect(rs: seq<Result<FullName, NameError>>): (c: Lists)
    ensures |c.full| <= |rs|
    ensures |c.last| <= |c.full| && |c.first| <= |c.full|
    decreases |rs|
  {
    if rs == [] then Lists([], [], [])
    else Concat(Collect(rs[..|rs| - 1]), EntryOf(rs[|rs| - 1]))
  }

  /** The records among the outcomes, in order; a `NameError` is skipped. */
  function Records(rs: seq<Result<FullName, NameError>>): seq<FullName>
    decreases |rs|
  {
    if rs == [] then []
    else
      var init := Records(rs[..|rs| - 1]);
      match rs[|rs| - 1]
      case Ok(n) => init + [n]
      case Err(_) => init
  }

  lemma CollectStep(texts: seq<string>, i: nat)
    requires i < |texts|
    ensures Collect(Outcomes(texts[..i + 1])) == Concat(Collect(Outcomes(texts[..i])), EntryOf(InitName(texts[i])))
  {
    assert texts[..i + 1][..i] == texts[..i];
    var rs := Outcomes(texts[..i + 1]);
    assert rs[..i] == Outcomes(texts[..i]);
  }

  /** One pass of the loop of `make_dic`: the entries for the outcome `r` of
      the constructor are appended to the three lists. */
  method AddEntries(full: seq<string>, last: seq<string>, first: seq<string>, r: Result<FullName, NameError>)
    returns (full': seq<string>, last': seq<string>, first': seq<string>)
    ensures Lists(full', last', first') == Concat(Lists(full, last, first), EntryOf(r))
  {
    full', last', first' := full, last, first;
    if r.Ok? {
      var n := r.value;
      full' := full' + [FullLine(n)];
      if !n.isFgn {
        if !n.IsAllKanaLast() {
          last' := last' + [SurnameLine(n)];
        }
        if !n.IsAllKanaFirst() {
          first' := first' + [GivenLine(n)];
        }
      }
    }
  }

  /** The loop of `make_dic` followed by the three `dict.fromkeys` deduplications. */
  method MakeDic(texts: seq<string>) returns (full: seq<string>, last: seq<string>, first: seq<string>)
    ensures full == FromKeys(Collect(Outcomes(texts)).full)
    ensures last == FromKeys(Collect(Outcomes(texts)).last)
    ensures first == FromKeys(Collect(Outcomes(texts)).first)
  {
    full, last, first := [], [], [];
    var i := 0;
    while i < |texts|
      invariant 0 <= i <= |texts|
      invariant Lists(full, last, first) == Collect(Outcomes(texts[..i]))
    {
      var r := InitName(texts[i]);
      full, last, first := AddEntries(full, last, first, r);
      CollectStep(texts, i);
      i := i + 1;
    }
    assert texts[..i] == texts;
    full := FromKeys(full);
    last := FromKeys(last);
    first := FromKeys(first);
  }

  /** What `make_dic` hands to `file.write`, in order: the three formatted lists. */
  function WrittenText(full: seq<string>, last: seq<string>, first: seq<string>): string {
    Formatting(full) + Formatting(last) + Formatting(first)
  }

  /** As written: the dictionary file, opened with `newline="\r\n"`, stores
      the written text with every line feed translated. */
  function StoredFile(full: seq<string>, last: seq<string>, first: seq<string>): string {
    Translate(WrittenText(full, last, first))
  }

  /** Corrected: each entry ended by a line feed, which the file stores as CR LF. */
  function IntendedFile(full: seq<string>, last: seq<string>, first: seq<string>): string {
    Translate(Terminated(full, "\n") + Terminated(last, "\n") + Terminated(first, "\n"))
  }

  /** No entry line holds a carriage return or a line feed. */
  predicate SingleLines(li: seq<string>) {
    forall i | 0 <= i < |li| :: '\r' !in li[i] && '\n' !in li[i]
  }

  /** A text without whitespace holds no tab, carriage return or line feed. */
  lemma NoBreaks(s: string)
    requires All(s, NotSpace)
    ensures '\t' !in s && '\r' !in s && '\n' !in s
  {
    forall k | 0 <= k < |s|
      ensures s[k] != '\t' && s[k] != '\r' && s[k] != '\n'
    {
      assert NotSpace(s[k]);
    }
  }

  /** The four texts of a record hold no tab, carriage return or line feed. */
  lemma RecordNoBreaks(n: FullName)
    requires n.Valid()
    ensures forall s | s in [n.last, n.first, n.kanaLast, n.kanaFirst] :: '\t' !in s && '\r' !in s && '\n' !in s
  {
    NoBreaks(n.last);
    NoBreaks(n.first);
    NoBreaks(n.kanaLast);
    NoBreaks(n.kanaFirst);
  }

  /** The full-name entry of a record is one line whose tab-separated columns
      are the reading, the written name and the category 人名. */
  lemma FullLineFields(n: FullName)
    requires n.Valid()
    ensures Fields(FullLine(n)) == [n.GetKana(), n.GetName(), "人名"]
    ensures '\r' !in FullLine(n) && '\n' !in FullLine(n)
  {
    RecordNoBreaks(n);
    ThreeFields(n.GetKana(), n.GetName(), "人名");
  }

  /** The surname entry: reading, written surname and the category 姓. */
  lemma SurnameLineFields(n: FullName)
    requires n.Valid()
    ensures Fields(SurnameLine(n)) == [n.kanaLast, n.last, "姓"]
    ensures '\r' !in SurnameLine(n) && '\n' !in SurnameLine(n)
  {
    RecordNoBreaks(n);
    ThreeFields(n.kanaLast, n.last, "姓");
  }

  /** The given-name entry: reading, written given name and the category 名. */
  lemma GivenLineFields(n: FullName)
    requires n.Valid()
    ensures Fields(GivenLine(n)) == [n.kanaFirst, n.first, "名"]
    ensures '\r' !in GivenLine(n) && '\n' !in GivenLine(n)
  {
    RecordNoBreaks(n);
    ThreeFields(n.kanaFirst, n.first, "名");
  }

  /** The full-name list holds one entry per record, in order. */
  lemma {:induction false} CollectFull(rs: seq<Result<FullName, NameError>>)
    ensures |Collect(rs).full| == |Records(rs)|
    ensures forall k | 0 <= k < |Records(rs)| :: Collect(rs).full[k] == FullLine(Records(rs)[k])
    decreases |rs|
  {
    if rs != [] {
      CollectFull(rs[..|rs| - 1]);
    }
  }

  /** The records are exactly the accepted outcomes. */
  lemma {:induction false} RecordsIn(rs: seq<Result<FullName, NameError>>, n: FullName)
    ensures n in Records(rs) <==> Ok(n) in rs
    decreases |rs|
  {
    if rs != [] {
      var init := rs[..|rs| - 1];
      RecordsIn(init, n);
      assert rs == init + [rs[|rs| - 1]];
    }
  }

  /** The records made from the texts are exactly what the constructor
      returns for the texts it accepts. */
  lemma AcceptedTexts(texts: seq<string>, n: FullName)
    ensures n in Records(Outcomes(texts)) <==> exists k | 0 <= k < |texts| :: InitName(texts[k]) == Ok(n)
  {
    var rs := Outcomes(texts);
    RecordsIn(rs, n);
    if k :| 0 <= k < |texts| && InitName(texts[k]) == Ok(n) {
      OutcomeAt(texts, k);
      assert rs[k] == Ok(n);
    }
    if Ok(n) in rs {
      var k :| 0 <= k < |rs| && rs[k] == Ok(n);
      OutcomeAt(texts, k);
    }
  }

  /** A line is in the surname list exactly when it is the surname entry of a
      Japanese record whose surname is not all kana; foreign records add none. */
  lemma {:induction false} SurnameLinesIn(rs: seq<Result<FullName, NameError>>, line: string)
    ensures line in Collect(rs).last <==>
              exists n | n in Records(rs) :: HasSurnameLine(n) && line == SurnameLine(n)
    decreases |rs|
  {
    if rs != [] {
      SurnameLinesIn(rs[..|rs| - 1], line);
    }
  }

  /** A line is in the given-name list exactly when it is the given-name entry
      of a Japanese record whose given name is not all kana. */
  lemma {:induction false} GivenLinesIn(rs: seq<Result<FullName, NameError>>, line: string)
    ensures line in Collect(rs).first <==>
              exists n | n in Records(rs) :: HasGivenLine(n) && line == GivenLine(n)
    decreases |rs|
  {
    if rs != [] {
      GivenLinesIn(rs[..|rs| - 1], line);
    }
  }

  /** Every record among the outcomes satisfies the invariants of `FullName`
      when every accepted outcome does. */
  lemma RecordsValid(rs: seq<Result<FullName, NameError>>)
    requires forall k | 0 <= k < |rs| :: rs[k].Ok? ==> rs[k].value.Valid()
    ensures forall n | n in Records(rs) :: n.Valid()
  {
    forall n | n in Records(rs)
      ensures n.Valid()
    {
      RecordsIn(rs, n);
      var k :| 0 <= k < |rs| && rs[k] == Ok(n);
    }
  }

  /** Concatenated lists without line breaks have none. */
  lemma SingleLinesAppend(a: seq<string>, b: seq<string>)
    requires SingleLines(a) && SingleLines(b)
    ensures SingleLines(a + b)
  {
    var ab := a + b;
    forall i | 0 <= i < |ab|
      ensures '\r' !in ab[i] && '\n' !in ab[i]
    {
      if i < |a| {
        assert ab[i] == a[i];
      } else {
        assert ab[i] == b[i - |a|];
      }
    }
  }

  /** Deduplication keeps only entries of its input, so adds no line break. */
  lemma SingleLinesFromKeys(a: seq<string>)
    requires SingleLines(a)
    ensures SingleLines(FromKeys(a))
  {
    var r := FromKeys(a);
    forall i | 0 <= i < |r|
      ensures '\r' !in r[i] && '\n' !in r[i]
    {
      assert r[i] in a;
    }
  }

  /** No full-name entry holds a line break. */
  lemma FullSingleLines(rs: seq<Result<FullName, NameError>>)
    requires forall k | 0 <= k < |rs| :: rs[k].Ok? ==> rs[k].value.Valid()
    ensures SingleLines(Collect(rs).full)
  {
    RecordsValid(rs);
    CollectFull(rs);
    var c := Collect(rs);
    forall k | 0 <= k < |c.full|
      ensures '\r' !in c.full[k] && '\n' !in c.full[k]
    {
      assert Records(rs)[k] in Records(rs);
      FullLineFields(Records(rs)[k]);
    }
  }

  /** No surname entry holds a line break. */
  lemma SurnameSingleLines(rs: seq<Result<FullName, NameError>>)
    requires forall k | 0 <= k < |rs| :: rs[k].Ok? ==> rs[k].value.Valid()
    ensures SingleLines(Collect(rs).last)
  {
    RecordsValid(rs);
    var c := Collect(rs);
    forall k | 0 <= k < |c.last|
      ensures '\r' !in c.last[k] && '\n' !in c.last[k]
    {
      SurnameLinesIn(rs, c.last[k]);
      var n :| n in Records(rs) && HasSurnameLine(n) && c.last[k] == SurnameLine(n);
      SurnameLineFields(n);
    }
  }

  /** No given-name entry holds a line break. */
  lemma GivenSingleLines(rs: seq<Result<FullName, NameError>>)
    requires forall k | 0 <= k < |rs| :: rs[k].Ok? ==> rs[k].value.Valid()
    ensures SingleLines(Collect(rs).first)
  {
    RecordsValid(rs);
    var c := Collect(rs);
    forall k | 0 <= k < |c.first|
      ensures '\r' !in c.first[k] && '\n' !in c.first[k]
    {
      GivenLinesIn(rs, c.first[k]);
      var n :| n in Records(rs) && HasGivenLine(n) && c.first[k] == GivenLine(n);
      GivenLineFields(n);
    }
  }

  /** As written: every entry of the stored dictionary ends in CR CR LF
      rather than CR LF. */
  lemma StoredFileLineEnds(full: seq<string>, last: seq<string>, first: seq<string>)
    requires SingleLines(full) && SingleLines(last) && SingleLines(first)
    ensures StoredFile(full, last, first) == Terminated(full + last + first, "\r\r\n")
  {
    TranslateAppend(Formatting(full) + Formatting(last), Formatting(first));
    TranslateAppend(Formatting(full), Formatting(last));
    StoredFormatting(full);
    StoredFormatting(last);
    StoredFormatting(first);
    TerminatedAppend(full, last, "\r\r\n");
    TerminatedAppend(full + last, first, "\r\r\n");
  }

  /** A one-entry dictionary shows it: the entry "x" is stored as "x" CR CR LF. */
  lemma StoredFileExample()
    ensures StoredFile(["x"], [], []) == "x\r\r\n"
  {
    StoredFileLineEnds(["x"], [], []);
    assert ["x"] + [] + [] == ["x"];
  }

  /** Corrected: entries ended by a line feed are stored as the CR LF
      formatting of the three lists, which reads back as the entries. */
  lemma IntendedFileRoundTrip(full: seq<string>, last: seq<string>, first: seq<string>)
    requires SingleLines(full) && SingleLines(last) && SingleLines(first)
    ensures IntendedFile(full, last, first) == Formatting(full + last + first)
    ensures Unformat(IntendedFile(full, last, first)) == full + last + first
  {
    var lf := Terminated(full, "\n") + Terminated(last, "\n");
    TranslateAppend(lf, Terminated(first, "\n"));
    TranslateAppend(Terminated(full, "\n"), Terminated(last, "\n"));
    StoredLineFeeds(full);
    StoredLineFeeds(last);
    StoredLineFeeds(first);
    TerminatedAppend(full, last, Crlf);
    TerminatedAppend(full + last, first, Crlf);
    var all := full + last + first;
    SingleLinesAppend(full, last);
    SingleLinesAppend(full + last, first);
    FormattingRoundTrip(all);
  }

  /** The dictionary `make_dic` builds from `texts`: as written each entry is
      stored ending in CR CR LF; with the corrected line ends the file reads
      back as the full-name, surname and given-name entries in that order. */
  lemma DictionaryFile(texts: seq<string>)
    ensures var c := Collect(Outcomes(texts));
            StoredFile(FromKeys(c.full), FromKeys(c.last), FromKeys(c.first))
              == Terminated(FromKeys(c.full) + FromKeys(c.last) + FromKeys(c.first), "\r\r\n")
    ensures var c := Collect(Outcomes(texts));
            Unformat(IntendedFile(FromKeys(c.full), FromKeys(c.last), FromKeys(c.first)))
              == FromKeys(c.full) + FromKeys(c.last) + FromKeys(c.first)
  {
    var c := Collect(Outcomes(texts));
    var rs := Outcomes(texts);
    FullSingleLines(rs);
    SurnameSingleLines(rs);
    GivenSingleLines(rs);
    SingleLinesFromKeys(c.full);
    SingleLinesFromKeys(c.last);
    SingleLinesFromKeys(c.first);
    StoredFileLineEnds(FromKeys(c.full), FromKeys(c.last), FromKeys(c.first));
    IntendedFileRoundTrip(FromKeys(c.full), FromKeys(c.last), FromKeys(c.first));
  }
}
